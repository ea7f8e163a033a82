/** What a delivery leaves behind: over any run, the objects that the end of a pass gave neither a row nor
    a reconciliation record (src/meshpipeline/application/artifact_uploader.py). Everything here is a
    function of the run; the protocol itself is the Delivery module's. */
module Leftovers {
  import opened Wrappers
  import opened Artifacts
  import opened Delivery

  // ---- the log of a pass -----------------------------------------------------------------------------

  /** A worked item of the open pass: its weather, and whether its row would have clashed. */
  datatype Tried = Tried(weather: Weather, clash: bool)

  predicate Succeeded(t: Tried) { Succeeds(t.weather, t.clash) }

  predicate Stays(t: Tried) { Succeeds(t.weather, t.clash) || Stuck(t.weather, t.clash) }

  /** Worker `i` can work its next item. */
  predicate Works(s: System, i: nat) {
    && i < |s.workers| && s.workers[i].phase.Uploading? && s.workers[i].phase.done < |s.workers[i].plan|
    && !Blocked(s, i, s.workers[i].plan[s.workers[i].phase.done].logicalKey)
  }

  function NextItem(s: System, i: nat): Planned
    requires Works(s, i)
  {
    s.workers[i].plan[s.workers[i].phase.done]
  }

  function TriedNow(s: System, i: nat, weather: Weather): Tried
    requires Works(s, i)
  {
    Tried(weather, ClashesWith(View(s, i), NextItem(s, i), weather, CurrencyAt(s.workers[i])))
  }

  function LogAfter(s: System, a: Action, i: nat, log: seq<Tried>): seq<Tried> {
    if a.Begin? && a.w == i && i < |s.workers| && s.workers[i].phase == Idle then []
    else if a.Work? && a.w == i && Works(s, i) then log + [TriedNow(s, i, a.weather)]
    else log
  }

  /** The items that worker `i` has worked in its latest pass. */
  function LogOf(start: System, actions: seq<Action>, i: nat): seq<Tried> {
    if actions == [] then []
    else
      var n := |actions| - 1;
      LogAfter(Run(start, actions[..n]), actions[n], i, LogOf(start, actions[..n], i))
  }

  /** The object that the `j`-th item of the pass put into the store. */
  function ObjectAt(w: Worker, log: seq<Tried>, j: nat): Orphan
    requires j < |log| && j < |w.plan| && Stays(log[j])
  {
    OrphanOf(w.plan[j], log[j].weather.upload.value, CurrencyAt(w))
  }

  ghost function StoredOf(w: Worker, log: seq<Tried>): set<Orphan> {
    set j | 0 <= j < |log| && j < |w.plan| && Succeeded(log[j]) :: ObjectAt(w, log, j)
  }

  ghost function StuckOf(w: Worker, log: seq<Tried>): set<Orphan> {
    set j | 0 <= j < |log| && j < |w.plan| && Stays(log[j]) && !Succeeded(log[j]) :: ObjectAt(w, log, j)
  }

  /** The report of an open pass names exactly what its items put into the store and left there. */
  ghost predicate Follows(w: Worker, log: seq<Tried>) {
    InTransaction(w.phase) ==> |log| == Done(w) && Reported(w, log)
  }

  ghost predicate Reported(w: Worker, log: seq<Tried>) {
    AsSet(w.report.stored) == StoredOf(w, log) && AsSet(w.report.orphans) == StuckOf(w, log)
  }

  lemma LogGrows(w: Worker, log: seq<Tried>, now: Tried)
    requires |log| < |w.plan|
    ensures var own := Only(Stays(now), w.plan[|log|], now.weather, CurrencyAt(w));
      && StoredOf(w, log + [now]) == StoredOf(w, log) + (if Succeeded(now) then AsSet(own) else {})
      && StuckOf(w, log + [now]) == StuckOf(w, log) + (if Succeeded(now) then {} else AsSet(own))
  {
    var longer := log + [now];
    forall j | 0 <= j < |log| && Stays(log[j]) ensures ObjectAt(w, longer, j) == ObjectAt(w, log, j) {}
    var own := Only(Stays(now), w.plan[|log|], now.weather, CurrencyAt(w));
    StoredGrows(w, log, now, AsSet(own));
    StuckGrows(w, log, now, AsSet(own));
  }

  lemma StoredGrows(w: Worker, log: seq<Tried>, now: Tried, own: set<Orphan>)
    requires |log| < |w.plan| && own == AsSet(Only(Stays(now), w.plan[|log|], now.weather, CurrencyAt(w)))
    ensures StoredOf(w, log + [now]) == StoredOf(w, log) + (if Succeeded(now) then own else {})
  {
    var longer := log + [now];
    forall o | o in StoredOf(w, longer) ensures o in StoredOf(w, log) || (Succeeded(now) && o in own) {
      var j :| 0 <= j < |longer| && j < |w.plan| && Succeeded(longer[j]) && ObjectAt(w, longer, j) == o;
      if j < |log| { assert Succeeded(log[j]) && ObjectAt(w, log, j) == o; }
    }
    forall o | o in StoredOf(w, log) ensures o in StoredOf(w, longer) {
      var j :| 0 <= j < |log| && j < |w.plan| && Succeeded(log[j]) && ObjectAt(w, log, j) == o;
      assert Succeeded(longer[j]) && ObjectAt(w, longer, j) == o;
    }
    if Succeeded(now) {
      assert longer[|log|] == now && ObjectAt(w, longer, |log|) in StoredOf(w, longer);
    }
  }

  lemma StuckGrows(w: Worker, log: seq<Tried>, now: Tried, own: set<Orphan>)
    requires |log| < |w.plan| && own == AsSet(Only(Stays(now), w.plan[|log|], now.weather, CurrencyAt(w)))
    ensures StuckOf(w, log + [now]) == StuckOf(w, log) + (if Succeeded(now) then {} else own)
  {
    var longer := log + [now];
    forall o | o in StuckOf(w, longer) ensures o in StuckOf(w, log) || (!Succeeded(now) && o in own) {
      var j :| 0 <= j < |longer| && j < |w.plan| && Stays(longer[j]) && !Succeeded(longer[j])
          && ObjectAt(w, longer, j) == o;
      if j < |log| { assert Stays(log[j]) && !Succeeded(log[j]) && ObjectAt(w, log, j) == o; }
    }
    forall o | o in StuckOf(w, log) ensures o in StuckOf(w, longer) {
      var j :| 0 <= j < |log| && j < |w.plan| && Stays(log[j]) && !Succeeded(log[j]) && ObjectAt(w, log, j) == o;
      assert Stays(longer[j]) && !Succeeded(longer[j]) && ObjectAt(w, longer, j) == o;
    }
    if Stays(now) && !Succeeded(now) {
      assert longer[|log|] == now && ObjectAt(w, longer, |log|) in StuckOf(w, longer);
    }
  }

  lemma AsSetAdds(a: seq<Orphan>, b: seq<Orphan>)
    ensures AsSet(a + b) == AsSet(a) + AsSet(b)
  {
  }

  /** The report after an item names what the longer log says. */
  lemma ItemFollows(s: System, i: nat, weather: Weather, log: seq<Tried>)
    requires Works(s, i) && Follows(s.workers[i], log)
    ensures var w := s.workers[i];
      var after := Item(State(View(s, i), s.store, w.report), NextItem(s, i), weather, CurrencyAt(w)).0;
      Reported(w.(report := after.report), log + [TriedNow(s, i, weather)])
  {
    var w, now := s.workers[i], TriedNow(s, i, weather);
    var at := State(View(s, i), s.store, w.report);
    var after := Item(at, NextItem(s, i), weather, CurrencyAt(w)).0;
    ItemOutcome(at, NextItem(s, i), weather, CurrencyAt(w));
    AsSetAdds(w.report.stored, Only(Succeeded(now), NextItem(s, i), weather, CurrencyAt(w)));
    AsSetAdds(w.report.orphans, Only(Stuck(weather, now.clash), NextItem(s, i), weather, CurrencyAt(w)));
    LogGrows(w, log, now);
    SameLogOf(w, w.(report := after.report), log + [now]);
  }

  lemma SameLogOf(v: Worker, w: Worker, log: seq<Tried>)
    requires v.plan == w.plan && CurrencyAt(v) == CurrencyAt(w)
    ensures StoredOf(v, log) == StoredOf(w, log) && StuckOf(v, log) == StuckOf(w, log)
  {
    forall j | 0 <= j < |log| && j < |v.plan| && Stays(log[j]) ensures ObjectAt(v, log, j) == ObjectAt(w, log, j) {}
  }

  lemma AdvancedWorker(s: System, i: nat, after: State, orphans: seq<Orphan>)
    requires Works(s, i)
    ensures var w := s.workers[i];
      var u := Advanced(s, i, w.phase.done, after);
      var t, v := u.workers[i], TryFails(u, i, orphans).workers[i];
      && t.plan == v.plan == w.plan && CurrencyAt(t) == CurrencyAt(v) == CurrencyAt(w)
      && t.report == v.report == after.report && Done(t) == w.phase.done + 1 && !InTransaction(v.phase)
  {
  }

  lemma WorkedWorker(s: System, i: nat, weather: Weather)
    requires Works(s, i)
    ensures var w, t := s.workers[i], Worked(s, i, weather).workers[i];
      && t.plan == w.plan && CurrencyAt(t) == CurrencyAt(w)
      && t.report == Item(State(View(s, i), s.store, w.report), NextItem(s, i), weather, CurrencyAt(w)).0.report
      && (InTransaction(t.phase) ==> Done(t) == w.phase.done + 1)
  {
    var w := s.workers[i];
    var (after, raised) := Item(State(View(s, i), s.store, w.report), NextItem(s, i), weather, CurrencyAt(w));
    AdvancedWorker(s, i, after, if raised.Some? then raised.value else []);
  }

  lemma WorkFollows(s: System, i: nat, weather: Weather, log: seq<Tried>)
    requires Works(s, i) && Follows(s.workers[i], log)
    ensures var now := log + [TriedNow(s, i, weather)];
      && Follows(Worked(s, i, weather).workers[i], now)
      && Reported(Worked(s, i, weather).workers[i], now)
  {
    var w, t := s.workers[i], Worked(s, i, weather).workers[i];
    WorkedWorker(s, i, weather);
    ItemFollows(s, i, weather, log);
    SameLogOf(w.(report := t.report), t, log + [TriedNow(s, i, weather)]);
  }

  lemma EmptyFollows(w: Worker)
    requires w.report == EMPTY
    ensures Reported(w, [])
  {
  }

  lemma BeginFollows(s: System, i: nat, plan: seq<Planned>)
    requires i < |s.workers| && s.workers[i].phase == Idle
    ensures Follows(Began(s, i, plan).workers[i], [])
  {
    if PromisesSomething(plan) { EmptyFollows(Began(s, i, plan).workers[i]); }
  }

  /** The worker has the report it had, and no other items worked. */
  predicate SameWork(w: Worker, t: Worker) {
    && t.plan == w.plan && t.report == w.report && CurrencyAt(t) == CurrencyAt(w)
    && (InTransaction(t.phase) ==> InTransaction(w.phase) && Done(t) == Done(w))
  }

  lemma FenceSameWork(s: System, i: nat)
    requires i < |s.workers|
    ensures SameWork(s.workers[i], FenceTried(s, i).workers[i])
  {
  }

  lemma CommitSameWork(s: System, i: nat, how: Ending)
    requires i < |s.workers|
    ensures SameWork(s.workers[i], Committed(s, i, how).workers[i])
  {
  }

  lemma CrashSameWork(s: System, i: nat)
    requires i < |s.workers|
    ensures SameWork(s.workers[i], Crashed(s, i).workers[i])
  {
  }

  lemma RestSameWork(s: System, a: Action)
    requires OfWorker(s, a) && (a.Fence? || a.Commit? || a.Crash?)
    ensures |Step(s, a).workers| == |s.workers| && SameWork(s.workers[a.w], Step(s, a).workers[a.w])
  {
    StepIsLocal(s, a);
    if a.Fence? {
      FenceSameWork(s, a.w);
    } else if a.Commit? {
      CommitSameWork(s, a.w, a.how);
    } else {
      CrashSameWork(s, a.w);
    }
  }

  lemma SameWorkFollows(w: Worker, t: Worker, log: seq<Tried>)
    requires SameWork(w, t) && Follows(w, log)
    ensures Follows(t, log)
  {
    SameLogOf(w, t, log);
  }

  lemma StepFollows(s: System, a: Action, i: nat, log: seq<Tried>)
    requires i < |s.workers| && Follows(s.workers[i], log)
    ensures i < |Step(s, a).workers| && Follows(Step(s, a).workers[i], LogAfter(s, a, i, log))
  {
    WorkersAfter(s, a);
    if OfWorker(s, a) && a.w == i {
      if a.Begin? {
        if s.workers[i].phase == Idle { BeginFollows(s, i, a.plan); }
      } else if a.Work? {
        if Works(s, i) { WorkFollows(s, i, a.weather, log); }
      } else {
        RestSameWork(s, a);
        SameWorkFollows(s.workers[i], Step(s, a).workers[i], log);
      }
    } else if OfWorker(s, a) {
      StepIsLocal(s, a);
      assert Step(s, a).workers[i] == s.workers[i];
    }
  }

  lemma {:induction false} LogsFollow(start: System, actions: seq<Action>, i: nat)
    requires start.workers == [] && i < |Run(start, actions).workers|
    ensures Follows(Run(start, actions).workers[i], LogOf(start, actions, i))
  {
    if actions != [] {
      var n := |actions| - 1;
      var s := Run(start, actions[..n]);
      if i < |s.workers| {
        LogsFollow(start, actions[..n], i);
        StepFollows(s, actions[n], i, LogOf(start, actions[..n], i));
      } else {
        WorkersAfter(s, actions[n]);
      }
    }
  }

  // ---- what the end of a pass forgets ------------------------------------------------------------------

  /** An object that a worker's pass left behind. */
  datatype Leftover = Leftover(worker: nat, orphan: Orphan)

  predicate Publishes(s: System, a: Action) {
    a.Commit? && a.how != Fails && a.w < |s.workers| && s.workers[a.w].phase == Locked
  }

  /** The step ends the open pass of its worker. */
  predicate EndsPass(s: System, a: Action) {
    && OfWorker(s, a) && a.w < |Step(s, a).workers|
    && InTransaction(s.workers[a.w].phase) && !InTransaction(Step(s, a).workers[a.w].phase)
  }

  /** The objects the report of an ended pass names, unless the step registered them or they have a
      record after it. */
  ghost function LeftBy(s: System, a: Action): set<Leftover> {
    if !EndsPass(s, a) then {}
    else
      var t := Step(s, a);
      var r := t.workers[a.w].report;
      set o | o in AsSet(r.stored) + AsSet(r.orphans) && o !in t.records && !(Publishes(s, a) && o in r.stored)
        :: Leftover(a.w, o)
  }

  /** What a run has left behind. */
  ghost function Left(start: System, actions: seq<Action>): set<Leftover> {
    if actions == [] then {}
    else
      var n := |actions| - 1;
      Left(start, actions[..n]) + LeftBy(Run(start, actions[..n]), actions[n])
  }

  /** A required item that does not land aborts the pass. */
  predicate Aborts(s: System, i: nat, weather: Weather)
    requires Works(s, i)
  {
    NextItem(s, i).required && !Succeeded(TriedNow(s, i, weather))
  }

  /** The object of an item that aborts the pass: the exception names it if it stays. */
  function Named(s: System, i: nat, weather: Weather): seq<Orphan>
    requires Works(s, i)
  {
    Only(Stays(TriedNow(s, i, weather)), NextItem(s, i), weather, CurrencyAt(s.workers[i]))
  }

  /** The same, from the plan, the log of the pass and the earlier records: an abort and a failed commit
      and a crash forget all that stayed in the store, but for what an abort names; a refusal and an
      exception before the orphans are recorded forget what stayed without landing. */
  ghost function Forgotten(s: System, a: Action, log: seq<Tried>): set<Orphan>
    requires OfWorker(s, a)
  {
    var w := s.workers[a.w];
    var landed, stuck := StoredOf(w, log), StuckOf(w, log);
    match a
    case Work(i, weather) =>
      if Works(s, i) && Aborts(s, i, weather) then landed + stuck - s.records - AsSet(Named(s, i, weather)) else {}
    case Fence(i) => if Refuses(s, i) then stuck - landed - s.records else {}
    case Commit(i, how) =>
      if w.phase != Locked then {}
      else if how == Fails then landed + stuck - s.records
      else if how == Raises(false) then stuck - landed - s.records
      else {}
    case Crash(i) => if InTransaction(w.phase) then landed + stuck - s.records else {}
    case _ => {}
  }

  /** `LeftBy` spelt out for one report. */
  lemma LeftMeans(s: System, a: Action, o: Orphan)
    requires EndsPass(s, a)
    ensures var (t, r) := (Step(s, a), Step(s, a).workers[a.w].report);
      Leftover(a.w, o) in LeftBy(s, a) <==>
        (o in r.stored || o in r.orphans) && o !in t.records && !(Publishes(s, a) && o in r.stored)
  {
  }

  lemma WorkForgets(s: System, a: Action, log: seq<Tried>, o: Orphan)
    requires OfWorker(s, a) && a.Work? && Follows(s.workers[a.w], log)
    ensures Leftover(a.w, o) in LeftBy(s, a) <==> o in Forgotten(s, a, log)
  {
    var i, w := a.w, s.workers[a.w];
    if Works(s, i) {
      var at := State(View(s, i), s.store, w.report);
      ItemOutcome(at, NextItem(s, i), a.weather, CurrencyAt(w));
      if Aborts(s, i, a.weather) { AbortForgets(s, a, log, o); }
    }
  }

  lemma AbortRecords(s: System, i: nat, weather: Weather)
    requires Works(s, i) && Aborts(s, i, weather)
    ensures Worked(s, i, weather).records == s.records + AsSet(Named(s, i, weather))
    ensures !InTransaction(Worked(s, i, weather).workers[i].phase)
  {
    var w := s.workers[i];
    ItemOutcome(State(View(s, i), s.store, w.report), NextItem(s, i), weather, CurrencyAt(w));
  }

  lemma AbortForgets(s: System, a: Action, log: seq<Tried>, o: Orphan)
    requires OfWorker(s, a) && a.Work? && Follows(s.workers[a.w], log)
    requires Works(s, a.w) && Aborts(s, a.w, a.weather)
    ensures Leftover(a.w, o) in LeftBy(s, a) <==> o in Forgotten(s, a, log)
  {
    var i, w := a.w, s.workers[a.w];
    WorkFollows(s, i, a.weather, log);
    LogGrows(w, log, TriedNow(s, i, a.weather));
    var t := Step(s, a).workers[i];
    SameLogOf(w, t, log + [TriedNow(s, i, a.weather)]);
    AbortRecords(s, i, a.weather);
    LeftMeans(s, a, o);
    assert o in t.report.stored <==> o in AsSet(t.report.stored);
    assert o in t.report.orphans <==> o in AsSet(t.report.orphans);
  }

  /** A step that ends the pass without touching its report. */
  lemma EndMeans(s: System, a: Action, log: seq<Tried>, o: Orphan)
    requires EndsPass(s, a) && (a.Fence? || a.Commit? || a.Crash?) && Follows(s.workers[a.w], log)
    ensures var landed, stuck := StoredOf(s.workers[a.w], log), StuckOf(s.workers[a.w], log);
      Leftover(a.w, o) in LeftBy(s, a) <==>
        (o in landed || o in stuck) && o !in Step(s, a).records && !(Publishes(s, a) && o in landed)
  {
    var w := s.workers[a.w];
    RestSameWork(s, a);
    LeftMeans(s, a, o);
    assert o in w.report.stored <==> o in AsSet(w.report.stored);
    assert o in w.report.orphans <==> o in AsSet(w.report.orphans);
  }

  lemma FenceForgets(s: System, a: Action, log: seq<Tried>, o: Orphan)
    requires OfWorker(s, a) && a.Fence? && Follows(s.workers[a.w], log)
    ensures Leftover(a.w, o) in LeftBy(s, a) <==> o in Forgotten(s, a, log)
  {
    var w := s.workers[a.w];
    assert EndsPass(s, a) <==> Refuses(s, a.w);
    if EndsPass(s, a) {
      EndMeans(s, a, log, o);
      assert Step(s, a).records == s.records + AsSet(w.report.stored);
    }
  }

  lemma CommitForgets(s: System, a: Action, log: seq<Tried>, o: Orphan)
    requires OfWorker(s, a) && a.Commit? && Follows(s.workers[a.w], log)
    ensures Leftover(a.w, o) in LeftBy(s, a) <==> o in Forgotten(s, a, log)
  {
    var w := s.workers[a.w];
    assert EndsPass(s, a) <==> w.phase == Locked;
    if EndsPass(s, a) {
      EndMeans(s, a, log, o);
      CommitRecords(s, a.w, a.how);
    }
  }

  lemma CommitRecords(s: System, i: nat, how: Ending)
    requires i < |s.workers| && s.workers[i].phase == Locked
    ensures Committed(s, i, how).records ==
      if how == Fails || how == Raises(false) then s.records else s.records + AsSet(s.workers[i].report.orphans)
  {
  }

  lemma CrashForgets(s: System, a: Action, log: seq<Tried>, o: Orphan)
    requires OfWorker(s, a) && a.Crash? && Follows(s.workers[a.w], log)
    ensures Leftover(a.w, o) in LeftBy(s, a) <==> o in Forgotten(s, a, log)
  {
    assert EndsPass(s, a) <==> InTransaction(s.workers[a.w].phase);
    if EndsPass(s, a) {
      EndMeans(s, a, log, o);
      assert Step(s, a).records == s.records;
    }
  }

  lemma BeginForgets(s: System, a: Action)
    requires OfWorker(s, a) && a.Begin?
    ensures LeftBy(s, a) == {}
  {
  }

  /** WHAT A STEP LEAVES BEHIND is what the plan, the weathers and the earlier records say. */
  lemma LeftByIs(s: System, a: Action, log: seq<Tried>, o: Orphan)
    requires OfWorker(s, a) && Follows(s.workers[a.w], log)
    ensures Leftover(a.w, o) in LeftBy(s, a) <==> o in Forgotten(s, a, log)
  {
    if a.Work? {
      WorkForgets(s, a, log, o);
    } else if a.Begin? {
      BeginForgets(s, a);
    } else if a.Fence? {
      FenceForgets(s, a, log, o);
    } else if a.Commit? {
      CommitForgets(s, a, log, o);
    } else {
      CrashForgets(s, a, log, o);
    }
  }

  // ---- over every run ------------------------------------------------------------------------------------

  /** What step `j` of the run forgets. */
  ghost function ForgottenAt(start: System, actions: seq<Action>, j: nat): set<Orphan>
    requires j < |actions|
  {
    var s, a := Run(start, actions[..j]), actions[j];
    if OfWorker(s, a) then Forgotten(s, a, LogOf(start, actions[..j], a.w)) else {}
  }

  predicate StepOf(actions: seq<Action>, j: nat, i: nat) {
    j < |actions| && !actions[j].Take? && !actions[j].Cancel? && actions[j].w == i
  }

  lemma ForgottenEarlier(start: System, actions: seq<Action>, n: nat, j: nat)
    requires j < n <= |actions|
    ensures ForgottenAt(start, actions[..n], j) == ForgottenAt(start, actions, j)
  {
    assert actions[..n][..j] == actions[..j];
  }

  lemma {:induction false} LastStepLeaves(start: System, actions: seq<Action>, i: nat, o: Orphan)
    requires start.workers == [] && actions != []
    ensures var n := |actions| - 1;
      Leftover(i, o) in LeftBy(Run(start, actions[..n]), actions[n])
      <==> ForgetsAt(start, actions, i, o, n)
  {
    var n := |actions| - 1;
    var s, a := Run(start, actions[..n]), actions[n];
    if OfWorker(s, a) {
      LogsFollow(start, actions[..n], a.w);
      LeftByIs(s, a, LogOf(start, actions[..n], a.w), o);
      OnlyItsWorker(s, a, i, o);
    }
  }

  lemma OnlyItsWorker(s: System, a: Action, i: nat, o: Orphan)
    requires OfWorker(s, a)
    ensures Leftover(i, o) in LeftBy(s, a) ==> i == a.w
  {
  }

  /** Step `j` of the run, one of worker `i`'s, forgets `o`. */
  ghost predicate ForgetsAt(start: System, actions: seq<Action>, i: nat, o: Orphan, j: nat) {
    StepOf(actions, j, i) && o in ForgottenAt(start, actions, j)
  }

  ghost predicate Forgets(start: System, actions: seq<Action>, i: nat, o: Orphan) {
    exists j: nat :: ForgetsAt(start, actions, i, o, j)
  }

  lemma ForgetsEarlier(start: System, actions: seq<Action>, i: nat, o: Orphan, n: nat, j: nat)
    requires j < n <= |actions|
    ensures ForgetsAt(start, actions[..n], i, o, j) <==> ForgetsAt(start, actions, i, o, j)
  {
    ForgottenEarlier(start, actions, n, j);
  }

  lemma {:induction false} LeftSplits(start: System, actions: seq<Action>, l: Leftover)
    requires actions != []
    ensures var n := |actions| - 1;
      l in Left(start, actions) <==> l in Left(start, actions[..n]) || l in LeftBy(Run(start, actions[..n]), actions[n])
  {
  }

  lemma {:induction false} LeftWasForgotten(start: System, actions: seq<Action>, i: nat, o: Orphan) returns (j: nat)
    requires start.workers == [] && Leftover(i, o) in Left(start, actions)
    ensures ForgetsAt(start, actions, i, o, j)
  {
    var n := |actions| - 1;
    LeftSplits(start, actions, Leftover(i, o));
    if Leftover(i, o) in Left(start, actions[..n]) {
      j := LeftWasForgotten(start, actions[..n], i, o);
      ForgetsEarlier(start, actions, i, o, n, j);
    } else {
      LastStepLeaves(start, actions, i, o);
      j := n;
    }
  }

  lemma {:induction false} ForgottenIsLeft(start: System, actions: seq<Action>, i: nat, o: Orphan, j: nat)
    requires start.workers == [] && ForgetsAt(start, actions, i, o, j)
    ensures Leftover(i, o) in Left(start, actions)
    decreases |actions|
  {
    var n := |actions| - 1;
    LeftSplits(start, actions, Leftover(i, o));
    if j < n {
      ForgetsEarlier(start, actions, i, o, n, j);
      ForgottenIsLeft(start, actions[..n], i, o, j);
    } else {
      assert j == n;
      LastStepLeaves(start, actions, i, o);
    }
  }

  /** WHAT A RUN LEAVES BEHIND, EXACTLY: what its steps forget, each read off the plan and the weathers of
      the pass it ends and the records made before it. */
  lemma {:induction false} LeftIsForgotten(start: System, actions: seq<Action>, i: nat, o: Orphan)
    requires start.workers == []
    ensures Leftover(i, o) in Left(start, actions) <==> Forgets(start, actions, i, o)
  {
    if Leftover(i, o) in Left(start, actions) { var j := LeftWasForgotten(start, actions, i, o); }
    if Forgets(start, actions, i, o) {
      var j: nat :| ForgetsAt(start, actions, i, o, j);
      ForgottenIsLeft(start, actions, i, o, j);
    }
  }

  ghost predicate AllRecorded(start: System, actions: seq<Action>, i: nat, records: set<Orphan>) {
    forall o :: Leftover(i, o) in Left(start, actions) ==> o in records
  }

  /** So a worker, and in particular one that gave up, has a record of all that it left exactly when what
      each of its steps forgot has come to be recorded by now. */
  lemma {:induction false} AllRecordedIff(start: System, actions: seq<Action>, i: nat)
    requires start.workers == []
    ensures AllRecorded(start, actions, i, Run(start, actions).records)
      <==> forall j: nat :: StepOf(actions, j, i) ==> ForgottenAt(start, actions, j) <= Run(start, actions).records
  {
    var records := Run(start, actions).records;
    if AllRecorded(start, actions, i, records) {
      forall j: nat | StepOf(actions, j, i) ensures ForgottenAt(start, actions, j) <= records {
        forall o | o in ForgottenAt(start, actions, j) ensures o in records {
          assert ForgetsAt(start, actions, i, o, j);
          LeftIsForgotten(start, actions, i, o);
        }
      }
    }
    if forall j: nat :: StepOf(actions, j, i) ==> ForgottenAt(start, actions, j) <= records {
      forall o | Leftover(i, o) in Left(start, actions) ensures o in records {
        LeftIsForgotten(start, actions, i, o);
        var j: nat :| ForgetsAt(start, actions, i, o, j);
        assert ForgottenAt(start, actions, j) <= records;
      }
    }
  }

  // ---- a pass that fails -----------------------------------------------------------------------------------

  /** The pass ends without a row and without a refusal: an item aborts it, its commit fails, or the
      worker dies. */
  predicate FailsPass(s: System, a: Action) {
    && OfWorker(s, a)
    && match a
       case Work(i, weather) => Works(s, i) && Aborts(s, i, weather)
       case Commit(i, how) => s.workers[i].phase == Locked && how == Fails
       case Crash(i) => InTransaction(s.workers[i].phase)
       case _ => false
  }

  /** The object an exception names, if one does. */
  function NamedBy(s: System, a: Action): seq<Orphan>
    requires FailsPass(s, a)
  {
    if a.Work? then Named(s, a.w, a.weather) else []
  }

  /** Each item worked so far either left nothing in the store or left an object of `records`. */
  ghost predicate Answered(w: Worker, log: seq<Tried>, records: set<Orphan>) {
    forall j :: 0 <= j < |log| && j < |w.plan| && Stays(log[j]) ==> ObjectAt(w, log, j) in records
  }

  lemma AnsweredMeans(w: Worker, log: seq<Tried>, records: set<Orphan>)
    ensures Answered(w, log, records) <==> StoredOf(w, log) + StuckOf(w, log) <= records
  {
    if StoredOf(w, log) + StuckOf(w, log) <= records {
      forall j | 0 <= j < |log| && j < |w.plan| && Stays(log[j]) ensures ObjectAt(w, log, j) in records {
        assert ObjectAt(w, log, j) in StoredOf(w, log) + StuckOf(w, log);
      }
    }
  }

  lemma FailureForgets(s: System, a: Action, log: seq<Tried>)
    requires FailsPass(s, a)
    ensures Forgotten(s, a, log) ==
      StoredOf(s.workers[a.w], log) + StuckOf(s.workers[a.w], log) - s.records - AsSet(NamedBy(s, a))
  {
  }

  lemma WithinBoth<T>(x: set<T>, r: set<T>, n: set<T>)
    ensures x - r - n == {} <==> x <= r + n
  {
    if x - r - n == {} {
      forall o | o in x ensures o in r + n { assert o !in x - r - n; }
    }
  }

  lemma FailureIff(s: System, a: Action, log: seq<Tried>)
    requires FailsPass(s, a)
    ensures Forgotten(s, a, log) == {} <==> Answered(s.workers[a.w], log, s.records + AsSet(NamedBy(s, a)))
  {
    var w := s.workers[a.w];
    FailureForgets(s, a, log);
    WithinBoth(StoredOf(w, log) + StuckOf(w, log), s.records, AsSet(NamedBy(s, a)));
    AnsweredMeans(w, log, s.records + AsSet(NamedBy(s, a)));
  }

  lemma NothingLeftIff(s: System, a: Action, log: seq<Tried>)
    requires OfWorker(s, a) && Follows(s.workers[a.w], log)
    ensures LeftBy(s, a) == {} <==> Forgotten(s, a, log) == {}
  {
    if LeftBy(s, a) == {} && Forgotten(s, a, log) != {} {
      var o :| o in Forgotten(s, a, log);
      LeftByIs(s, a, log, o);
    }
    if Forgotten(s, a, log) == {} && LeftBy(s, a) != {} {
      var l :| l in LeftBy(s, a);
      OnlyItsWorker(s, a, l.worker, l.orphan);
      LeftByIs(s, a, log, l.orphan);
    }
  }

  /** A FAILED PASS LEAVES NOTHING BEHIND, EXACTLY WHEN each of its items that landed, or could not be
      deleted, put into the store an object that an earlier pass had recorded or the exception names. */
  lemma {:induction false} FailedPassForgetsNothingIff(start: System, actions: seq<Action>, a: Action)
    requires start.workers == [] && FailsPass(Run(start, actions), a)
    ensures var s := Run(start, actions);
      LeftBy(s, a) == {}
      <==> Answered(s.workers[a.w], LogOf(start, actions, a.w), s.records + AsSet(NamedBy(s, a)))
  {
    var s, log := Run(start, actions), LogOf(start, actions, a.w);
    LogsFollow(start, actions, a.w);
    NothingLeftIff(s, a, log);
    FailureIff(s, a, log);
  }

  /** No two items of the plan put their objects under one key. */
  ghost predicate DistinctKeys(plan: seq<Planned>) {
    forall i, j :: 0 <= i < j < |plan| ==> plan[i].objectKey != plan[j].objectKey
  }

  ghost predicate NoneStays(log: seq<Tried>) { forall j :: 0 <= j < |log| ==> !Stays(log[j]) }

  lemma LogFits(w: Worker, log: seq<Tried>)
    requires InTransaction(w.phase) && Follows(w, log)
    ensures |log| <= |w.plan|
  {
  }

  /** Before anything has a record: exactly when no item before the failure landed or stayed. */
  lemma {:induction false} FirstFailureForgetsNothingIff(start: System, actions: seq<Action>, a: Action)
    requires start.workers == [] && FailsPass(Run(start, actions), a)
    requires Run(start, actions).records == {} && DistinctKeys(Run(start, actions).workers[a.w].plan)
    ensures LeftBy(Run(start, actions), a) == {} <==> NoneStays(LogOf(start, actions, a.w))
  {
    var s, log := Run(start, actions), LogOf(start, actions, a.w);
    var w := s.workers[a.w];
    LogsFollow(start, actions, a.w);
    LogFits(w, log);
    FailedPassForgetsNothingIff(start, actions, a);
    if !NoneStays(log) {
      var j :| 0 <= j < |log| && Stays(log[j]);
      NotNamed(s, a, log, j);
    }
  }

  /** What an exception names is the object of the item it came from. */
  lemma NotNamed(s: System, a: Action, log: seq<Tried>, j: nat)
    requires FailsPass(s, a) && DistinctKeys(s.workers[a.w].plan) && Follows(s.workers[a.w], log)
    requires j < |log| <= |s.workers[a.w].plan| && Stays(log[j])
    ensures ObjectAt(s.workers[a.w], log, j) !in AsSet(NamedBy(s, a))
  {
  }

  /** A commit is only tried when something has landed. */
  lemma SomethingLanded(w: Worker, rows: map<string, Row>, log: seq<Tried>) returns (j: nat)
    requires w.phase == Locked && ReportOk(w, rows) && Follows(w, log)
    ensures j < |log| && j < |w.plan| && Succeeded(log[j])
  {
    var p :| p in w.plan && p.required;
    assert w.plan[..Done(w)] == w.plan;
    var landed :| Accounts(w.plan, landed, w.report);
    var k := RequiredLanded(w.plan, landed, w.report, p);
    assert w.report.stored[k] in AsSet(w.report.stored);
    assert w.report.stored[k] in StoredOf(w, log);
    j :| 0 <= j < |log| && j < |w.plan| && Succeeded(log[j]);
  }

  /** So a failed commit leaves something behind unless all of it was recorded by earlier passes, and the
      first failure of a run always does if it is one. */
  lemma {:induction false} FailedCommitForgets(rows: map<string, Row>, store: map<string, Obj>, actions: seq<Action>,
                                               i: nat)
    requires FailsPass(Run(Start(rows, store), actions), Commit(i, Fails))
    ensures var (s, log) := (Run(Start(rows, store), actions), LogOf(Start(rows, store), actions, i));
      && (LeftBy(s, Commit(i, Fails)) == {} <==> Answered(s.workers[i], log, s.records))
      && !NoneStays(log)
      && (s.records == {} ==> LeftBy(s, Commit(i, Fails)) != {})
  {
    var start := Start(rows, store);
    var s, log := Run(start, actions), LogOf(start, actions, i);
    FailedPassForgetsNothingIff(start, actions, Commit(i, Fails));
    assert s.records + AsSet([]) == s.records;
    RunKeeps(rows, store, actions);
    LogsFollow(start, actions, i);
    var j := SomethingLanded(s.workers[i], View(s, i), log);
    assert Stays(log[j]);
  }

  // ---- a pass that is refused -------------------------------------------------------------------------------

  /** Each item that could not be deleted left an object of `records`. */
  ghost predicate StuckAnswered(w: Worker, log: seq<Tried>, records: set<Orphan>) {
    forall j :: 0 <= j < |log| && j < |w.plan| && Stays(log[j]) && !Succeeded(log[j]) ==> ObjectAt(w, log, j) in records
  }

  lemma StuckMeans(w: Worker, log: seq<Tried>, records: set<Orphan>)
    ensures StuckAnswered(w, log, records) <==> StuckOf(w, log) <= records
  {
    if StuckOf(w, log) <= records {
      forall j | 0 <= j < |log| && j < |w.plan| && Stays(log[j]) && !Succeeded(log[j])
        ensures ObjectAt(w, log, j) in records {
        assert ObjectAt(w, log, j) in StuckOf(w, log);
      }
    }
  }

  lemma StuckIsNotStored(w: Worker, log: seq<Tried>)
    requires DistinctKeys(w.plan)
    ensures StuckOf(w, log) !! StoredOf(w, log)
  {
    forall o | o in StuckOf(w, log) ensures o !in StoredOf(w, log) {
      var j :| 0 <= j < |log| && j < |w.plan| && Stays(log[j]) && !Succeeded(log[j]) && ObjectAt(w, log, j) == o;
      forall k | 0 <= k < |log| && k < |w.plan| && Succeeded(log[k]) ensures ObjectAt(w, log, k) != o {
        assert w.plan[k].objectKey == w.plan[j].objectKey ==> k == j;
      }
    }
  }

  /** Of a plan with distinct keys no object is both an orphan and registered: a refusal leaves all orphans
      recorded exactly when each had a record before, and, before anything has one, exactly when there are
      no orphans; that is when every item that failed after its upload could be deleted. */
  lemma {:induction false} RefusalForgetsNothingIff(start: System, actions: seq<Action>, i: nat)
    requires start.workers == [] && Refuses(Run(start, actions), i)
    requires DistinctKeys(Run(start, actions).workers[i].plan)
    ensures var (s, log) := (Run(start, actions), LogOf(start, actions, i));
      var w := s.workers[i];
      && (LeftBy(s, Fence(i)) == {} <==> StuckAnswered(w, log, s.records))
      && (AsSet(w.report.orphans) <= FenceTried(s, i).records <==> StuckAnswered(w, log, s.records))
      && (s.records == {} ==> (StuckAnswered(w, log, s.records) <==> w.report.orphans == []))
  {
    var s, log := Run(start, actions), LogOf(start, actions, i);
    var w := s.workers[i];
    LogsFollow(start, actions, i);
    NothingLeftIff(s, Fence(i), log);
    StuckMeans(w, log, s.records);
    StuckIsNotStored(w, log);
    RefusedSets(StuckOf(w, log), StoredOf(w, log), s.records);
    assert FenceTried(s, i).records == s.records + StoredOf(w, log);
    if w.report.orphans != [] { assert w.report.orphans[0] in AsSet(w.report.orphans); }
  }

  lemma RefusedSets<T>(stuck: set<T>, stored: set<T>, records: set<T>)
    requires stuck !! stored
    ensures stuck - stored - records == {} <==> stuck <= records
    ensures stuck <= records + stored <==> stuck <= records
  {
    if stuck - stored - records == {} {
      forall o | o in stuck ensures o in records { assert o !in stuck - stored - records; }
    }
    if stuck <= records + stored {
      forall o | o in stuck ensures o in records { assert o in records + stored; }
    }
  }

  // ---- the run that gives up ---------------------------------------------------------------------------------

  /** The first commit of three that fail. */
  lemma FirstCommitFails()
    ensures var s := Run(Start(map[], map[]), [Take(1, false, 0)] + PASS);
      FailsPass(s, Commit(0, Fails)) && s.records == {} && s.workers[0].report == MESH_REPORT
  {
    var start, first := Start(map[], map[]), [Take(1, false, 0)];
    RunMore(start, [], first[0]);
    assert [] + first == first;
    FirstTaken();
    var s := Run(start, first);
    RunMore(start, first, PASS[0]);
    RunMore(start, first + [PASS[0]], PASS[1]);
    RunMore(start, first + [PASS[0]] + [PASS[1]], PASS[2]);
    assert first + PASS == first + [PASS[0]] + [PASS[1]] + [PASS[2]];
    PassBegins(s, s.workers[0]);
    PassWorks(s, s.workers[0], Step(s, PASS[0]));
    PassLocks(s, s.workers[0], Step(Step(s, PASS[0]), PASS[1]));
  }

  lemma FailureLeaves(s: System)
    requires FailsPass(s, Commit(0, Fails)) && s.records == {} && s.workers[0].report == MESH_REPORT
    ensures Leftover(0, MESH_STORED) in LeftBy(s, Commit(0, Fails))
  {
    LeftMeans(s, Commit(0, Fails), MESH_STORED);
  }

  /** The worker that gives up after three failed commits breaks the condition at its first: what it had
      registered is left behind and has no record at the end. */
  lemma ThreePassesForget()
    ensures var (start, actions) := (Start(map[], map[]), ThreePasses(Fails));
      && actions[4] == Commit(0, Fails) && FailsPass(Run(start, actions[..4]), actions[4])
      && !Answered(Run(start, actions[..4]).workers[0], LogOf(start, actions[..4], 0), {})
      && Leftover(0, MESH_STORED) in Left(start, actions) && Run(start, actions).records == {}
  {
    var start, actions := Start(map[], map[]), ThreePasses(Fails);
    FirstCommitFails();
    assert actions[..4] == [Take(1, false, 0)] + PASS;
    var s := Run(start, actions[..4]);
    FailedCommitForgets(map[], map[], actions[..4], 0);
    FailureLeaves(s);
    LogsFollow(start, actions[..4], 0);
    LeftByIs(s, actions[4], LogOf(start, actions[..4], 0), MESH_STORED);
    ForgottenIsLeft(start, actions, 0, MESH_STORED, 4);
    ThreePassesGiveUp(Fails);
  }

  // ---- every object in the store ------------------------------------------------------------------------------

  /** An object whose row a commit made visible, and the currency it was written at. */
  datatype Entry = Entry(orphan: Orphan, at: Currency)

  ghost function RegisteredBy(s: System, a: Action): set<Entry> {
    if !Publishes(s, a) then {}
    else set o | o in AsSet(s.workers[a.w].report.stored) :: Entry(o, CurrencyAt(s.workers[a.w]))
  }

  ghost function Registrations(start: System, actions: seq<Action>): set<Entry> {
    if actions == [] then {}
    else
      var n := |actions| - 1;
      Registrations(start, actions[..n]) + RegisteredBy(Run(start, actions[..n]), actions[n])
  }

  ghost predicate HasRow(rows: map<string, Row>, e: Entry) {
    e.orphan.logicalKey in rows && AtMost(e.at, CurrencyOf(rows[e.orphan.logicalKey]))
  }

  lemma CommitHasRows(s: System, a: Action, e: Entry, initial: map<string, Row>)
    requires Inv(s, initial) && e in RegisteredBy(s, a)
    ensures HasRow(Step(s, a).rows, e)
  {
    var w := s.workers[a.w];
    assert ReportOk(w, View(s, a.w));
    CommitPublishes(s, a.w, a.how);
  }

  lemma RowStays(a: map<string, Row>, b: map<string, Row>, e: Entry)
    requires HasRow(a, e) && RowsGrow(a, b)
    ensures HasRow(b, e)
  {
  }

  /** What a commit registered has a row from then on, at that currency or a newer one. */
  lemma {:induction false} RegistrationsHaveRows(rows: map<string, Row>, store: map<string, Obj>, actions: seq<Action>,
                                                 e: Entry)
    requires e in Registrations(Start(rows, store), actions)
    ensures HasRow(Run(Start(rows, store), actions).rows, e)
  {
    var n := |actions| - 1;
    var s := Run(Start(rows, store), actions[..n]);
    RunKeeps(rows, store, actions[..n]);
    if e in RegisteredBy(s, actions[n]) {
      CommitHasRows(s, actions[n], e, rows);
    } else {
      RegistrationsHaveRows(rows, store, actions[..n], e);
      StepGrows(s, actions[n], rows);
      RowStays(s.rows, Step(s, actions[n]).rows, e);
    }
  }

  predicate Reports(w: Worker, o: Orphan) { o in w.report.stored || o in w.report.orphans }

  /** Somebody answers for the object under `k`: a record, a row, an open pass, or nobody any more. */
  ghost predicate AnsweredFor(s: System, entries: set<Entry>, left: set<Leftover>, o: Orphan) {
    || o in s.records
    || (exists e :: e in entries && e.orphan == o)
    || (exists i :: 0 <= i < |s.workers| && InTransaction(s.workers[i].phase) && Reports(s.workers[i], o))
    || (exists l :: l in left && l.orphan == o)
  }

  /** An object in the store was there at the start and is as it was, or is one that is answered for. */
  ghost predicate Known(s: System, initial: map<string, Obj>, entries: set<Entry>, left: set<Leftover>, k: string) {
    || (k in initial && k in s.store && s.store[k] == initial[k])
    || exists o: Orphan :: o.objectKey == k && AnsweredFor(s, entries, left, o)
  }

  /** Who answers for an object before a step answers for it after it, or has passed it on. */
  lemma StillAnswered(s: System, a: Action, entries: set<Entry>, left: set<Leftover>, o: Orphan)
    requires AnsweredFor(s, entries, left, o)
    ensures AnsweredFor(Step(s, a), entries + RegisteredBy(s, a), left + LeftBy(s, a), o)
  {
    var t := Step(s, a);
    if o in s.records {
      RecordsGrow(s, a);
    } else if exists i :: 0 <= i < |s.workers| && InTransaction(s.workers[i].phase) && Reports(s.workers[i], o) {
      var i :| 0 <= i < |s.workers| && InTransaction(s.workers[i].phase) && Reports(s.workers[i], o);
      PassAnswers(s, a, entries, left, i, o);
    } else if e :| e in entries && e.orphan == o {
      assert e in entries + RegisteredBy(s, a);
    } else {
      var l :| l in left && l.orphan == o;
      assert l in left + LeftBy(s, a);
    }
  }

  lemma RecordsGrow(s: System, a: Action)
    ensures s.records <= Step(s, a).records
  {
  }

  lemma PassAnswers(s: System, a: Action, entries: set<Entry>, left: set<Leftover>, i: nat, o: Orphan)
    requires i < |s.workers| && InTransaction(s.workers[i].phase) && Reports(s.workers[i], o)
    ensures AnsweredFor(Step(s, a), entries + RegisteredBy(s, a), left + LeftBy(s, a), o)
  {
    WorkersAfter(s, a);
    if OfWorker(s, a) && a.w == i {
      ReportStays(s, a, o);
      AnsweredAfter(s, a, entries, left, o);
    } else if OfWorker(s, a) {
      StepIsLocal(s, a);
      assert Step(s, a).workers[i] == s.workers[i];
    } else {
      assert Step(s, a).workers[i] == s.workers[i];
    }
  }

  /** A worker's step in its pass leaves no object out of its report. */
  lemma ReportStays(s: System, a: Action, o: Orphan)
    requires OfWorker(s, a) && InTransaction(s.workers[a.w].phase) && Reports(s.workers[a.w], o)
    ensures a.w < |Step(s, a).workers| && Reports(Step(s, a).workers[a.w], o)
  {
    StepIsLocal(s, a);
    if a.Work? {
      if Works(s, a.w) {
        var w := s.workers[a.w];
        WorkedWorker(s, a.w, a.weather);
        ItemOutcome(State(View(s, a.w), s.store, w.report), NextItem(s, a.w), a.weather, CurrencyAt(w));
      }
    } else if !a.Begin? {
      RestSameWork(s, a);
    }
  }

  /** What the report names after a step of an open pass is answered for: by the pass if it is still open,
      and else by the step that ended it. */
  lemma AnsweredAfter(s: System, a: Action, entries: set<Entry>, left: set<Leftover>, o: Orphan)
    requires OfWorker(s, a) && InTransaction(s.workers[a.w].phase) && a.w < |Step(s, a).workers|
    requires Reports(Step(s, a).workers[a.w], o)
    ensures AnsweredFor(Step(s, a), entries + RegisteredBy(s, a), left + LeftBy(s, a), o)
  {
    var t := Step(s, a);
    if EndsPass(s, a) && o !in t.records {
      LeftMeans(s, a, o);
      if Publishes(s, a) && o in t.workers[a.w].report.stored {
        RestSameWork(s, a);
        assert Entry(o, CurrencyAt(s.workers[a.w])) in entries + RegisteredBy(s, a);
      } else {
        assert Leftover(a.w, o) in left + LeftBy(s, a);
      }
    }
  }

  /** The object of the item just worked. */
  function OwnObject(s: System, a: Action): Orphan
    requires a.Work? && Works(s, a.w) && Stays(TriedNow(s, a.w, a.weather))
  {
    OrphanOf(NextItem(s, a.w), a.weather.upload.value, CurrencyAt(s.workers[a.w]))
  }

  predicate PutsNow(s: System, a: Action) { a.Work? && Works(s, a.w) && Stays(TriedNow(s, a.w, a.weather)) }

  lemma WorkedStore(s: System, i: nat, weather: Weather)
    requires Works(s, i)
    ensures var w := s.workers[i];
      Worked(s, i, weather).store
      == Item(State(View(s, i), s.store, w.report), NextItem(s, i), weather, CurrencyAt(w)).0.store
  {
  }

  lemma BeginStores(s: System, i: nat, plan: seq<Planned>)
    requires i < |s.workers|
    ensures Began(s, i, plan).store == s.store
  {
  }

  lemma CommitStores(s: System, i: nat, how: Ending)
    requires i < |s.workers|
    ensures Committed(s, i, how).store == s.store
  {
  }

  lemma OnlyWorkStores(s: System, a: Action)
    requires !(a.Work? && Works(s, a.w))
    ensures Step(s, a).store == s.store
  {
    if OfWorker(s, a) {
      match a
      case Begin(i, plan) => BeginStores(s, i, plan);
      case Work(i, weather) =>
      case Fence(i) =>
      case Commit(i, how) => CommitStores(s, i, how);
      case Crash(i) =>
    }
  }

  lemma StoreAfter(s: System, a: Action, k: string)
    requires k in Step(s, a).store
    ensures (k in s.store && Step(s, a).store[k] == s.store[k]) || (PutsNow(s, a) && k == OwnObject(s, a).objectKey)
  {
    if a.Work? && Works(s, a.w) {
      var w := s.workers[a.w];
      WorkedStore(s, a.w, a.weather);
      ItemStore(State(View(s, a.w), s.store, w.report), NextItem(s, a.w), a.weather, CurrencyAt(w));
    } else {
      OnlyWorkStores(s, a);
    }
  }

  lemma OwnIsReported(s: System, a: Action)
    requires PutsNow(s, a)
    ensures a.w < |Step(s, a).workers| && Reports(Step(s, a).workers[a.w], OwnObject(s, a))
  {
    var w := s.workers[a.w];
    StepIsLocal(s, a);
    WorkedWorker(s, a.w, a.weather);
    ItemOutcome(State(View(s, a.w), s.store, w.report), NextItem(s, a.w), a.weather, CurrencyAt(w));
  }

  lemma StepKnows(s: System, a: Action, initial: map<string, Obj>, entries: set<Entry>, left: set<Leftover>, k: string)
    requires k in Step(s, a).store && (k in s.store ==> Known(s, initial, entries, left, k))
    ensures Known(Step(s, a), initial, entries + RegisteredBy(s, a), left + LeftBy(s, a), k)
  {
    StoreAfter(s, a, k);
    if PutsNow(s, a) && k == OwnObject(s, a).objectKey {
      OwnIsReported(s, a);
      AnsweredAfter(s, a, entries, left, OwnObject(s, a));
    } else if !(k in initial && s.store[k] == initial[k]) {
      var o: Orphan :| o.objectKey == k && AnsweredFor(s, entries, left, o);
      StillAnswered(s, a, entries, left, o);
    }
  }

  /** THE STORE IS ACCOUNTED FOR. In every reachable state each object in the store was there at the start,
      or has a record, or was registered and has its row (`RegistrationsHaveRows`), or is in the report of a
      pass still open, or was left behind; and what is left behind is what the steps forget
      (`LeftIsForgotten`). */
  lemma {:induction false} StoreIsAnsweredFor(rows: map<string, Row>, store: map<string, Obj>, actions: seq<Action>,
                                              k: string)
    requires k in Run(Start(rows, store), actions).store
    ensures var start := Start(rows, store);
      Known(Run(start, actions), store, Registrations(start, actions), Left(start, actions), k)
  {
    if actions != [] {
      var n := |actions| - 1;
      var start := Start(rows, store);
      var s := Run(start, actions[..n]);
      if k in s.store { StoreIsAnsweredFor(rows, store, actions[..n], k); }
      StepKnows(s, actions[n], store, Registrations(start, actions[..n]), Left(start, actions[..n]), k);
    }
  }
}
