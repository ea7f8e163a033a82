/** What a claim on the job is worth (src/meshpipeline/persistence/lease.py): over any run, the generation it
    is given against every claim and row before it, and what that does for the worker that takes a job over. */
module Takeovers {
  import opened Wrappers
  import opened Artifacts
  import opened Delivery

  /** Generations start at one and never go back; the row's generation, and its owner if it has one, are those
      of the latest claim. */
  ghost predicate GensInv(s: System) {
    && (forall i :: 0 <= i < |s.workers| ==> 1 <= s.workers[i].claim.generation <= s.generation)
    && (forall i, j :: 0 <= i < j < |s.workers| ==> s.workers[i].claim.generation <= s.workers[j].claim.generation)
    && (if s.workers == [] then s.generation == 0 && s.owner.None?
        else
          && s.workers[|s.workers| - 1].claim.generation == s.generation
          && (s.owner.Some? ==> s.owner == Some(s.workers[|s.workers| - 1].claim)))
  }

  ghost predicate SameClaims(s: System, t: System) {
    && |t.workers| == |s.workers| && t.generation == s.generation && (t.owner == s.owner || t.owner.None?)
    && forall i :: 0 <= i < |s.workers| ==> t.workers[i].claim == s.workers[i].claim
  }

  lemma SameClaimsKeep(s: System, t: System)
    requires GensInv(s) && SameClaims(s, t)
    ensures GensInv(t)
  {
  }

  lemma BeginKeepsGeneration(s: System, i: nat, plan: seq<Planned>)
    requires i < |s.workers|
    ensures Began(s, i, plan).generation == s.generation
  {
  }

  lemma WorkKeepsGeneration(s: System, i: nat, weather: Weather)
    requires i < |s.workers|
    ensures Worked(s, i, weather).generation == s.generation
  {
  }

  lemma CommitKeepsGeneration(s: System, i: nat, how: Ending)
    requires i < |s.workers|
    ensures Committed(s, i, how).generation == s.generation
  {
  }

  lemma WorkersKeepClaims(s: System, a: Action)
    requires OfWorker(s, a)
    ensures SameClaims(s, Step(s, a))
  {
    StepIsLocal(s, a);
    match a
    case Begin(i, plan) => BeginKeepsGeneration(s, i, plan);
    case Work(i, weather) => WorkKeepsGeneration(s, i, weather);
    case Fence(i) =>
    case Commit(i, how) => CommitKeepsGeneration(s, i, how);
    case Crash(i) =>
  }

  lemma TakeKeepsGens(s: System, token: nat, sameExecution: bool, attempt: nat)
    requires GensInv(s)
    ensures GensInv(Taken(s, token, sameExecution, attempt))
  {
  }

  lemma {:induction false} RunKeepsGens(rows: map<string, Row>, store: map<string, Obj>, actions: seq<Action>)
    ensures GensInv(Run(Start(rows, store), actions))
  {
    if actions != [] {
      var n := |actions| - 1;
      var s, a := Run(Start(rows, store), actions[..n]), actions[n];
      RunKeepsGens(rows, store, actions[..n]);
      if a.Take? {
        TakeKeepsGens(s, a.token, a.sameExecution, a.attempt);
      } else {
        if OfWorker(s, a) { WorkersKeepClaims(s, a); }
        SameClaimsKeep(s, Step(s, a));
      }
    }
  }

  /** Nobody holds the row's lock, the job has not ended, and the token is new. */
  ghost predicate Claimable(s: System, token: nat) {
    s.lock.None? && !s.ended && forall w :: w in s.workers ==> w.claim.token != token
  }

  /** `t` is `s` with a fresh worker that owns the job under `claim`. */
  ghost predicate ClaimedBy(s: System, t: System, claim: Claim, attempt: nat) {
    && |t.workers| == |s.workers| + 1 && t.workers[..|s.workers|] == s.workers
    && t.owner == Some(claim) && t.generation == claim.generation
    && var w := t.workers[|s.workers|];
       w.claim == claim && w.attempt == attempt && w.phase == Idle && w.tries == 0 && w.pending == map[]
  }

  /** Every row a commit of the run wrote, every pending row and every earlier claim is of an older one. */
  ghost predicate Newest(s: System, generation: nat) {
    && (forall k :: k in s.origin ==> k in s.rows && s.rows[k].generation < generation)
    && (forall i, k :: 0 <= i < |s.workers| && k in s.workers[i].pending ==>
        s.workers[i].pending[k].generation < generation)
    && (forall i :: 0 <= i < |s.workers| ==> s.workers[i].claim.generation < generation)
  }

  lemma OriginIsOlder(s: System, k: string, initial: map<string, Row>)
    requires RowsInv(s, initial) && GensInv(s) && k in s.origin
    ensures k in s.rows && s.rows[k].generation <= s.generation
  {
    assert WrittenBy(s, k, s.origin[k]);
  }

  lemma PendingIsOlder(s: System, i: nat, k: string)
    requires PendingInv(s) && GensInv(s) && i < |s.workers| && k in s.workers[i].pending
    ensures s.workers[i].pending[k].generation <= s.generation
  {
    assert CurrencyOf(s.workers[i].pending[k]) == CurrencyAt(s.workers[i]);
  }

  lemma NextIsNewest(s: System, initial: map<string, Row>)
    requires PendingInv(s) && RowsInv(s, initial) && GensInv(s)
    ensures Newest(s, s.generation + 1)
  {
    forall k | k in s.origin ensures k in s.rows && s.rows[k].generation < s.generation + 1 {
      OriginIsOlder(s, k, initial);
    }
    forall i, k | 0 <= i < |s.workers| && k in s.workers[i].pending
      ensures s.workers[i].pending[k].generation < s.generation + 1 {
      PendingIsOlder(s, i, k);
    }
  }

  lemma Granted(s: System, token: nat, same: bool, attempt: nat)
    requires GensInv(s)
    ensures var t := Taken(s, token, same, attempt);
      && (t != s <==> Claimable(s, token))
      && (Claimable(s, token) ==>
            && ClaimedBy(s, t, Claim(t.generation, token), attempt)
            && t.generation == if same && s.workers != [] then s.generation else s.generation + 1)
  {
    var t := Taken(s, token, same, attempt);
    if Claimable(s, token) { assert |t.workers| == |s.workers| + 1; }
  }

  /** A TAKEOVER IS NEWEST. Over every run a claim is granted exactly when the job can be claimed. One by
      another execution gets a generation above every claim, visible row and pending row of the run; one by
      the same execution goes on with the generation there is. */
  lemma {:induction false} ClaimsAreGranted(rows: map<string, Row>, store: map<string, Obj>, actions: seq<Action>,
                                            token: nat, same: bool, attempt: nat)
    ensures var s := Run(Start(rows, store), actions);
      var t := Step(s, Take(token, same, attempt));
      && (t != s <==> Claimable(s, token))
      && (Claimable(s, token) ==>
            && ClaimedBy(s, t, Claim(t.generation, token), attempt)
            && (!same ==> t.generation == s.generation + 1 && Newest(s, t.generation))
            && (same && s.workers != [] ==> t.generation == s.generation)
            && (s.workers == [] ==> t.generation == 1))
  {
    var s := Run(Start(rows, store), actions);
    RunKeeps(rows, store, actions);
    RunKeepsGens(rows, store, actions);
    NextIsNewest(s, rows);
    Granted(s, token, same, attempt);
  }

  // ---- what the new generation is for ---------------------------------------------------------------------

  /** No row was there before the job was first claimed, or none of any generation. */
  ghost predicate Unclaimed(rows: map<string, Row>) { forall k :: k in rows ==> rows[k].generation == 0 }

  /** Worker `i` took the job over from every worker before it, and nobody from it. */
  ghost predicate TookOver(s: System, i: nat) {
    && i < |s.workers| && i == |s.workers| - 1
    && forall j :: 0 <= j < i ==> s.workers[j].claim.generation < s.workers[i].claim.generation
  }

  /** The row under `k` is one that worker `i` wrote: visible or pending. */
  predicate HasWritten(s: System, i: nat, k: string)
    requires i < |s.workers|
  {
    k in s.workers[i].pending || (k in s.origin && s.origin[k].worker == i)
  }

  /** A predecessor's row is of an older generation than the worker that took over. */
  lemma PredecessorsAreOlder(s: System, i: nat, k: string, initial: map<string, Row>)
    requires Inv(s, initial) && GensInv(s) && Unclaimed(initial) && TookOver(s, i)
    requires k in View(s, i) && !HasWritten(s, i, k)
    ensures Below(CurrencyOf(View(s, i)[k]), CurrencyAt(s.workers[i]))
  {
    assert View(s, i)[k] == s.rows[k];
    if k in s.origin { assert WrittenBy(s, k, s.origin[k]); }
  }

  /** The worker that took over meets no row of its predecessors: an item that is intact and can be written
      lands, unless the worker itself has written other content under the same key. */
  lemma {:induction false} TakeoverLands(rows: map<string, Row>, store: map<string, Obj>, actions: seq<Action>, i: nat,
                                         p: Planned, obj: Obj)
    requires Unclaimed(rows) && TookOver(Run(Start(rows, store), actions), i)
    ensures var s := Run(Start(rows, store), actions);
      var c := CurrencyAt(s.workers[i]);
      var (after, outcome) := DeliverArtifact(View(s, i), p, obj, c);
      && outcome != Superseded
      && (outcome == Conflict ==> HasWritten(s, i, p.logicalKey))
      && (!HasWritten(s, i, p.logicalKey) ==>
            after == View(s, i)[p.logicalKey := Row(p.kind, p.objectKey, obj, c.generation, c.attempt)])
  {
    var s := Run(Start(rows, store), actions);
    RunKeeps(rows, store, actions);
    RunKeepsGens(rows, store, actions);
    var c := CurrencyAt(s.workers[i]);
    Registered(View(s, i), p, obj, c);
    if p.logicalKey in View(s, i) {
      if HasWritten(s, i, p.logicalKey) {
        OwnRow(s, i, p.logicalKey, rows);
      } else {
        PredecessorsAreOlder(s, i, p.logicalKey, rows);
      }
    }
  }

  lemma OwnRow(s: System, i: nat, k: string, initial: map<string, Row>)
    requires Inv(s, initial) && i < |s.workers| && HasWritten(s, i, k) && k in View(s, i)
    ensures CurrencyOf(View(s, i)[k]) == CurrencyAt(s.workers[i])
  {
    if k !in s.workers[i].pending { assert WrittenBy(s, k, s.origin[k]); }
  }

  /** What a finished report calls stored is visible as the worker's own row. */
  lemma StoredIsOwn(s: System, i: nat, k: string, initial: map<string, Row>)
    requires Inv(s, initial) && GensInv(s) && Unclaimed(initial) && TookOver(s, i) && s.workers[i].phase == Finished
    requires k in s.rows && AtMost(CurrencyAt(s.workers[i]), CurrencyOf(s.rows[k]))
    ensures k in s.origin && s.origin[k].worker == i && CurrencyOf(s.rows[k]) == CurrencyAt(s.workers[i])
  {
    assert 1 <= s.workers[i].claim.generation;
    assert k in s.origin;
    assert WrittenBy(s, k, s.origin[k]);
    assert s.workers[s.origin[k].worker].claim.generation == s.workers[i].claim.generation;
  }

  /** THE JOB IS THE TAKER'S. Once the worker that took over has finished, and until the job is claimed again,
      the visible row of everything it stored, and so of every required item of its plan, is its own. */
  lemma {:induction false} TakeoverOwnsItsRows(rows: map<string, Row>, store: map<string, Obj>, actions: seq<Action>,
                                               i: nat)
    requires Unclaimed(rows)
    requires TookOver(Run(Start(rows, store), actions), i)
    requires Run(Start(rows, store), actions).workers[i].phase == Finished
    ensures var s := Run(Start(rows, store), actions);
      var w := s.workers[i];
      && (forall o :: o in w.report.stored ==> o.logicalKey in s.origin && s.origin[o.logicalKey].worker == i)
      && (forall p :: p in w.plan && p.required ==> p.logicalKey in s.origin && s.origin[p.logicalKey].worker == i)
  {
    var s := Run(Start(rows, store), actions);
    var w := s.workers[i];
    RunKeeps(rows, store, actions);
    RunKeepsGens(rows, store, actions);
    FinishedReport(s, i);
    forall o | o in w.report.stored ensures o.logicalKey in s.origin && s.origin[o.logicalKey].worker == i {
      StoredIsOwn(s, i, o.logicalKey, rows);
    }
    forall p | p in w.plan && p.required ensures p.logicalKey in s.origin && s.origin[p.logicalKey].worker == i {
      RequiredRow(w, s.rows, p);
      StoredIsOwn(s, i, p.logicalKey, rows);
    }
  }
}
