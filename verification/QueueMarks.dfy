/** The alert for queues that hold work nobody consumes: one expiring mark per queue
    (deploy/gcp/worker/queue_depth_publisher.py), against the history of what its runs have seen. */
module QueueMarks {
  import opened Wrappers

  const GRACE := 600.0

  const EXPIRY := 86400.0

  /** A mark's text and when it was written; after a day it is gone. */
  datatype Mark = Mark(since: int, setAt: real)

  datatype Stranded = Stranded(queue: string, waiting: int, seconds: int)

  /** One run: the time, the depth of each queue it measures, and the live consumers it counted. */
  datatype Sighting = Sighting(now: real, depths: seq<(string, int)>, consumers: map<string, int>)

  type Marks = map<string, Mark>

  predicate Live(m: Mark, now: real) { now < m.setAt + EXPIRY }

  /** Rounding toward zero. */
  function Trunc(x: real): int { if x >= 0.0 then x.Floor else -((-x).Floor) }

  function Held(marks: Marks, queue: string, now: real): Option<Mark> {
    if queue in marks && Live(marks[queue], now) then Some(marks[queue]) else None
  }

  predicate Unconsumed(depth: int, queue: string, consumers: map<string, int>) {
    depth > 0 && (queue in consumers ==> consumers[queue] <= 0)
  }

  /** What a queue's mark is after a run that saw it: kept while it lives, or else begun anew. */
  function MarkAfter(held: Option<Mark>, unconsumed: bool, now: real): Option<Mark> {
    if !unconsumed then None
    else if held.Some? && Live(held.value, now) then held
    else Some(Mark(Trunc(now), now))
  }

  function Waited(since: int, now: real): real { if now - since as real > 0.0 then now - since as real else 0.0 }

  function Put(marks: Marks, queue: string, m: Option<Mark>): Marks {
    match m case Some(mark) => marks[queue := mark] case None => marks - {queue}
  }

  function Seen(marks: Marks, queue: string): Option<Mark> {
    if queue in marks then Some(marks[queue]) else None
  }

  function MarksUpTo(marks: Marks, s: Sighting, k: nat): Marks
    requires k <= |s.depths|
  {
    if k == 0 then marks
    else
      var before := MarksUpTo(marks, s, k - 1);
      var (queue, depth) := s.depths[k - 1];
      Put(before, queue, MarkAfter(Seen(before, queue), Unconsumed(depth, queue, s.consumers), s.now))
  }

  function ReportsUpTo(marks: Marks, s: Sighting, grace: real, k: nat): seq<Stranded>
    requires k <= |s.depths|
  {
    if k == 0 then []
    else
      var (queue, depth) := s.depths[k - 1];
      var m := Seen(MarksUpTo(marks, s, k), queue);
      ReportsUpTo(marks, s, grace, k - 1)
      + if m.Some? && Waited(m.value.since, s.now) >= grace
        then [Stranded(queue, depth, Trunc(Waited(m.value.since, s.now)))] else []
  }

  class Publisher {
    var marks: Marks

    constructor ()
      ensures marks == map[]
    {
      marks := map[];
    }

    method SetIfAbsent(queue: string, now: real)
      modifies this
      ensures marks == if Held(old(marks), queue, now).Some? then old(marks)
          else old(marks)[queue := Mark(Trunc(now), now)]
    {
      if !(queue in marks && Live(marks[queue], now)) {
        marks := marks[queue := Mark(Trunc(now), now)];
      }
    }

    method StrandedQueues(s: Sighting, grace: real) returns (stranded: seq<Stranded>)
      modifies this
      ensures marks == MarksUpTo(old(marks), s, |s.depths|)
      ensures stranded == ReportsUpTo(old(marks), s, grace, |s.depths|)
    {
      stranded := [];
      for k := 0 to |s.depths|
        invariant marks == MarksUpTo(old(marks), s, k)
        invariant stranded == ReportsUpTo(old(marks), s, grace, k)
      {
        var (queue, depth) := s.depths[k];
        if depth <= 0 || (queue in s.consumers && s.consumers[queue] > 0) {
          marks := marks - {queue};
        } else {
          SetIfAbsent(queue, s.now);
          var waited := Waited(marks[queue].since, s.now);
          if waited >= grace {
            stranded := stranded + [Stranded(queue, depth, Trunc(waited))];
          }
        }
      }
    }
  }

  // ---- runs ---------------------------------------------------------------------------------------

  /** Each queue is measured once in a run. */
  ghost predicate OncePerRun(s: Sighting) {
    forall i, j :: 0 <= i < j < |s.depths| ==> s.depths[i].0 != s.depths[j].0
  }

  function Measured(s: Sighting, queue: string): (i: Option<nat>)
    ensures i.Some? ==> i.value < |s.depths| && s.depths[i.value].0 == queue
    ensures i.None? ==> forall j :: 0 <= j < |s.depths| ==> s.depths[j].0 != queue
  {
    MeasuredIn(s.depths, queue)
  }

  function MeasuredIn(depths: seq<(string, int)>, queue: string): (i: Option<nat>)
    ensures i.Some? ==> i.value < |depths| && depths[i.value].0 == queue
    ensures i.None? ==> forall j :: 0 <= j < |depths| ==> depths[j].0 != queue
  {
    if depths == [] then None
    else if depths[|depths| - 1].0 == queue then Some(|depths| - 1)
    else MeasuredIn(depths[..|depths| - 1], queue)
  }

  /** The marks after a sequence of runs on an empty store. */
  function MarksOf(runs: seq<Sighting>): Marks {
    if runs == [] then map[]
    else
      var last := runs[|runs| - 1];
      MarksUpTo(MarksOf(runs[..|runs| - 1]), last, |last.depths|)
  }

  /** One run's observation of one queue. */
  datatype Obs = Obs(now: real, unconsumed: bool)

  /** What the runs saw of one queue; a run that does not measure it saw nothing. */
  function History(runs: seq<Sighting>, queue: string): seq<Obs> {
    if runs == [] then []
    else
      var last := runs[|runs| - 1];
      var before := History(runs[..|runs| - 1], queue);
      match Measured(last, queue)
      case Some(i) => before + [Obs(last.now, Unconsumed(last.depths[i].1, queue, last.consumers))]
      case None => before
  }

  function MarkOf(h: seq<Obs>): Option<Mark> {
    if h == [] then None
    else
      var last := h[|h| - 1];
      MarkAfter(MarkOf(h[..|h| - 1]), last.unconsumed, last.now)
  }

  lemma {:induction false} OneRunOneQueue(marks: Marks, s: Sighting, queue: string, k: nat)
    requires OncePerRun(s) && k <= |s.depths|
    ensures Seen(MarksUpTo(marks, s, k), queue) ==
      match Measured(s, queue)
      case Some(i) =>
        if i < k then MarkAfter(Seen(marks, queue), Unconsumed(s.depths[i].1, queue, s.consumers), s.now)
        else Seen(marks, queue)
      case None => Seen(marks, queue)
  {
    if k > 0 { OneRunOneQueue(marks, s, queue, k - 1); }
  }

  /** Queues do not affect each other: a queue's mark is a function of that queue's history alone. */
  lemma {:induction false} QueuesAreIndependent(runs: seq<Sighting>, queue: string)
    requires forall s :: s in runs ==> OncePerRun(s)
    ensures Seen(MarksOf(runs), queue) == MarkOf(History(runs, queue))
  {
    if runs != [] {
      var front, last := runs[..|runs| - 1], runs[|runs| - 1];
      assert last in runs;
      QueuesAreIndependent(front, queue);
      OneRunOneQueue(MarksOf(front), last, queue, |last.depths|);
      if Measured(last, queue).Some? {
        assert History(runs, queue)[..|History(runs, queue)| - 1] == History(front, queue);
      }
    }
  }

  // ---- what the mark stands for -----------------------------------------------------------------------

  ghost predicate InOrder(h: seq<Obs>) {
    forall i, j :: 0 <= i < j < |h| ==> h[i].now <= h[j].now
  }

  /** The streak of unconsumed observations that ends the history begins at `i`. */
  ghost predicate StreakFrom(h: seq<Obs>, i: nat) {
    && i < |h| && (forall j :: i <= j < |h| ==> h[j].unconsumed)
    && (i > 0 ==> !h[i - 1].unconsumed)
  }

  lemma {:induction false} StreakExists(h: seq<Obs>) returns (i: nat)
    requires h != [] && h[|h| - 1].unconsumed
    ensures StreakFrom(h, i)
  {
    var n := |h| - 1;
    if n == 0 || !h[n - 1].unconsumed { i := n; } else { i := StreakExists(h[..n]); }
  }

  /** THE MARK IS THE STREAK, EXACTLY WHEN. While the work has waited less than a day the mark says
      when the current unbroken streak began; once it has waited a day the mark has been replaced. */
  lemma {:induction false} MarkIsStreakIff(h: seq<Obs>, i: nat)
    requires InOrder(h) && StreakFrom(h, i)
    ensures MarkOf(h).Some? && MarkOf(h).value.since == Trunc(MarkOf(h).value.setAt)
    ensures h[i].now <= MarkOf(h).value.setAt <= h[|h| - 1].now
    ensures MarkOf(h).value.setAt == h[i].now <==> h[|h| - 1].now < h[i].now + EXPIRY
  {
    var n := |h| - 1;
    if i < n {
      MarkIsStreakIff(h[..n], i);
    } else if n > 0 {
      assert MarkOf(h[..n]).None?;
    }
  }

  /** The observation of the streak from `i` at which the mark was last written: its first, or the first
      one a day or more after the time before. */
  function Renewed(h: seq<Obs>, i: nat): (r: nat)
    requires i < |h|
    ensures i <= r < |h|
  {
    var n := |h| - 1;
    if i == n then i
    else
      var r := Renewed(h[..n], i);
      if h[n].now < h[r].now + EXPIRY then r else n
  }

  /** For a streak of any length the mark is the time of its last renewal. */
  lemma {:induction false} MarkIsRenewal(h: seq<Obs>, i: nat)
    requires StreakFrom(h, i)
    ensures var r := Renewed(h, i); MarkOf(h) == Some(Mark(Trunc(h[r].now), h[r].now))
  {
    var n := |h| - 1;
    if i < n {
      MarkIsRenewal(h[..n], i);
    } else if n > 0 {
      assert MarkOf(h[..n]).None?;
    }
  }

  /** A renewal lasts: no other comes within a day of it. */
  lemma {:induction false} RenewalLasts(h: seq<Obs>, i: nat, j: nat)
    requires InOrder(h) && i <= j < |h| && Renewed(h[..j + 1], i) == j
    requires h[|h| - 1].now < h[j].now + EXPIRY
    ensures Renewed(h, i) == j
  {
    var n := |h| - 1;
    if j < n {
      assert h[..n][..j + 1] == h[..j + 1];
      RenewalLasts(h[..n], i, j);
    } else {
      assert h[..j + 1] == h;
    }
  }

  predicate Names(reports: seq<Stranded>, queue: string) { exists r :: r in reports && r.queue == queue }

  lemma NamesMore(reports: seq<Stranded>, more: seq<Stranded>, queue: string)
    ensures Names(reports + more, queue) <==> Names(reports, queue) || Names(more, queue)
  {
    if r :| r in reports && r.queue == queue { assert r in reports + more; }
    if r :| r in more && r.queue == queue { assert r in reports + more; }
  }

  lemma NamesOne(r: Stranded, queue: string)
    ensures Names([r], queue) <==> r.queue == queue
  {
    assert r in [r];
  }

  /** A queue is reported by a run exactly when the run sees it unconsumed and its mark is old enough. */
  lemma {:induction false} ReportedIff(marks: Marks, s: Sighting, grace: real, queue: string, k: nat)
    requires OncePerRun(s) && k <= |s.depths|
    ensures Names(ReportsUpTo(marks, s, grace, k), queue)
      <==> && Measured(s, queue).Some? && Measured(s, queue).value < k
           && Unconsumed(s.depths[Measured(s, queue).value].1, queue, s.consumers)
           && Seen(MarksUpTo(marks, s, k), queue).Some?
           && Waited(Seen(MarksUpTo(marks, s, k), queue).value.since, s.now) >= grace
  {
    OneRunOneQueue(marks, s, queue, k);
    if k > 0 {
      ReportedIff(marks, s, grace, queue, k - 1);
      OneRunOneQueue(marks, s, queue, k - 1);
      var before := ReportsUpTo(marks, s, grace, k - 1);
      var more := ReportsUpTo(marks, s, grace, k)[|before|..];
      assert ReportsUpTo(marks, s, grace, k) == before + more;
      NamesMore(before, more, queue);
      if more != [] { NamesOne(more[0], queue); }
    }
  }

  ghost predicate Reported(runs: seq<Sighting>, queue: string, grace: real) {
    && runs != []
    && var last := runs[|runs| - 1];
       Names(ReportsUpTo(MarksOf(runs[..|runs| - 1]), last, grace, |last.depths|), queue)
  }

  /** The latest run reports the queue exactly when it is unconsumed and its mark is old enough. */
  lemma {:induction false} LatestReportIff(runs: seq<Sighting>, queue: string, grace: real)
    requires runs != [] && (forall s :: s in runs ==> OncePerRun(s)) && Measured(runs[|runs| - 1], queue).Some?
    ensures var h := History(runs, queue);
      && h != [] && h[|h| - 1].now == runs[|runs| - 1].now
      && (Reported(runs, queue, grace)
          <==> h[|h| - 1].unconsumed && MarkOf(h).Some? && Waited(MarkOf(h).value.since, runs[|runs| - 1].now) >= grace)
  {
    var last := runs[|runs| - 1];
    assert last in runs;
    ReportedIff(MarksOf(runs[..|runs| - 1]), last, grace, queue, |last.depths|);
    QueuesAreIndependent(runs, queue);
  }

  /** The hypotheses of the results about alerts: each run measures a queue once and the latest measures
      this one, the runs are in order, and `i` begins the streak of unconsumed sightings they end in. */
  ghost predicate EndsInStreak(runs: seq<Sighting>, queue: string, i: nat) {
    && runs != [] && (forall s :: s in runs ==> OncePerRun(s)) && Measured(runs[|runs| - 1], queue).Some?
    && InOrder(History(runs, queue)) && StreakFrom(History(runs, queue), i)
  }

  /** The time since `since`, to the second, has reached the grace period. */
  predicate Overdue(since: real, now: real, grace: real) { Waited(Trunc(since), now) >= grace }

  /** THE ALERT REFINES THE HISTORY. The latest run reports a queue exactly when the streak it is in was
      last renewed at least `grace` ago, however long the streak is. */
  lemma {:induction false} AlertIsRenewal(runs: seq<Sighting>, queue: string, grace: real, i: nat)
    requires EndsInStreak(runs, queue, i)
    ensures var h := History(runs, queue);
      Reported(runs, queue, grace) <==> Overdue(h[Renewed(h, i)].now, runs[|runs| - 1].now, grace)
  {
    LatestReportIff(runs, queue, grace);
    MarkIsRenewal(History(runs, queue), i);
  }

  lemma TruncGrows(x: real, y: real)
    requires x <= y
    ensures Trunc(x) <= Trunc(y) && Trunc(x) as real <= x + 1.0
  {
  }

  lemma {:induction false} FirstRenewal(h: seq<Obs>, i: nat)
    requires InOrder(h) && i < |h| && h[|h| - 1].now < h[i].now + EXPIRY
    ensures Renewed(h, i) == i
  {
    if i < |h| - 1 { FirstRenewal(h[..|h| - 1], i); }
  }

  /** THE ALERT IS THE STREAK, EXACTLY WHEN. Reporting the streaks that began at least `grace` ago is
      what the alert is for. It does so when the streak is younger than a day, when its last renewal is
      itself that old, and when there is nothing to report; and only then. A streak of a day is always
      overdue for a grace period a second short of a day, so only the first two remain. */
  lemma {:induction false} AlertIsStreakIff(runs: seq<Sighting>, queue: string, grace: real, i: nat)
    requires EndsInStreak(runs, queue, i)
    ensures var (h, now) := (History(runs, queue), runs[|runs| - 1].now);
      && ((Reported(runs, queue, grace) <==> Overdue(h[i].now, now, grace))
          <==> (now < h[i].now + EXPIRY || Overdue(h[Renewed(h, i)].now, now, grace) || !Overdue(h[i].now, now, grace)))
      && (grace <= EXPIRY - 1.0 ==>
            ((Reported(runs, queue, grace) <==> Overdue(h[i].now, now, grace))
             <==> (now < h[i].now + EXPIRY || Overdue(h[Renewed(h, i)].now, now, grace))))
  {
    var h, now := History(runs, queue), runs[|runs| - 1].now;
    LatestReportIff(runs, queue, grace);
    AlertIsRenewal(runs, queue, grace, i);
    TruncGrows(h[i].now, h[Renewed(h, i)].now);
    if now < h[i].now + EXPIRY { FirstRenewal(h, i); }
  }

  /** A queue that is empty or consumed is not reported, whatever went before. */
  lemma {:induction false} ConsumedIsQuiet(runs: seq<Sighting>, queue: string, grace: real)
    requires runs != [] && (forall s :: s in runs ==> OncePerRun(s)) && Measured(runs[|runs| - 1], queue).Some?
    requires !History(runs, queue)[|History(runs, queue)| - 1].unconsumed
    ensures !Reported(runs, queue, grace) && MarkOf(History(runs, queue)).None?
  {
    LatestReportIff(runs, queue, grace);
  }

  /** A queue has a mark after a run exactly when the run found work in it and counted no consumer: it listed
      none for the queue, or a number that is not positive. */
  lemma {:induction false} MarkedIff(runs: seq<Sighting>, queue: string, i: nat)
    requires runs != [] && (forall s :: s in runs ==> OncePerRun(s)) && Measured(runs[|runs| - 1], queue) == Some(i)
    ensures var last := runs[|runs| - 1];
      queue in MarksOf(runs) <==> last.depths[i].1 >= 1 && !(queue in last.consumers && last.consumers[queue] >= 1)
  {
    LatestReportIff(runs, queue, 0.0);
    QueuesAreIndependent(runs, queue);
  }

  /** The integer part of a time: the nearest integer towards zero. */
  lemma TruncIsNearest(x: real)
    ensures if x >= 0.0 then Trunc(x) as real <= x < Trunc(x) as real + 1.0
            else Trunc(x) as real - 1.0 < x <= Trunc(x) as real
  {
  }

  /** A report tells the depth that was measured and the whole seconds since the mark was last written. */
  lemma {:induction false} ReportSays(marks: Marks, s: Sighting, grace: real, k: nat, r: Stranded)
    requires OncePerRun(s) && k <= |s.depths| && r in ReportsUpTo(marks, s, grace, k)
    ensures (r.queue, r.waiting) in s.depths[..k] && Seen(MarksUpTo(marks, s, k), r.queue).Some?
    ensures r.seconds == Trunc(Waited(Seen(MarksUpTo(marks, s, k), r.queue).value.since, s.now))
  {
    if r in ReportsUpTo(marks, s, grace, k - 1) {
      ReportSays(marks, s, grace, k - 1, r);
      var i :| 0 <= i < k - 1 && s.depths[..k - 1][i] == (r.queue, r.waiting);
      assert s.depths[i].0 != s.depths[k - 1].0 && s.depths[..k][i] == (r.queue, r.waiting);
    } else {
      assert s.depths[..k][k - 1] == (r.queue, r.waiting);
    }
  }

  lemma {:induction false} LatestSighting(runs: seq<Sighting>, queue: string)
    requires runs != [] && Measured(runs[|runs| - 1], queue).Some?
    ensures var h := History(runs, queue); h != [] && h[|h| - 1].now == runs[|runs| - 1].now
  {
  }

  lemma OverdueIff(since: real, now: real, grace: real)
    requires grace > 0.0
    ensures Overdue(since, now, grace) <==> now >= Trunc(since) as real + grace
  {
  }

  /** The quiet window. After a run that renewed the mark the runs of the next day report the queue from
      `grace` after that renewal on and not before, however long its work has waited. */
  lemma {:induction false} AlertPausesWhenTheMarkExpires(runs: seq<Sighting>, queue: string, grace: real, i: nat,
                                                         j: nat)
    requires EndsInStreak(runs, queue, i) && grace > 0.0
    requires var h := History(runs, queue);
      i <= j < |h| && Renewed(h[..j + 1], i) == j && runs[|runs| - 1].now < h[j].now + EXPIRY
    ensures Reported(runs, queue, grace)
      <==> runs[|runs| - 1].now >= Trunc(History(runs, queue)[j].now) as real + grace
  {
    var h := History(runs, queue);
    LatestSighting(runs, queue);
    RenewalLasts(h, i, j);
    AlertIsRenewal(runs, queue, grace, i);
    OverdueIff(h[j].now, runs[|runs| - 1].now, grace);
  }

  // ---- an outage of a day -------------------------------------------------------------------------------

  /** A run that sees one task waiting in the queue `q` and nobody consuming it. */
  function Waiting(now: real): Sighting { Sighting(now, [("q", 1)], map[]) }

  lemma {:induction false} SeenWaiting(runs: seq<Sighting>, now: real)
    ensures History(runs + [Waiting(now)], "q") == History(runs, "q") + [Obs(now, true)]
    ensures OncePerRun(Waiting(now)) && Measured(Waiting(now), "q") == Some(0)
  {
    assert (runs + [Waiting(now)])[..|runs|] == runs;
  }

  const TEN_MINUTES := [Waiting(0.0)] + [Waiting(600.0)]

  const A_DAY := [Waiting(0.0)] + [Waiting(600.0)] + [Waiting(86400.0)]

  lemma DayOfSightings()
    ensures History(TEN_MINUTES, "q") == [Obs(0.0, true), Obs(600.0, true)]
    ensures History(A_DAY, "q") == [Obs(0.0, true), Obs(600.0, true), Obs(86400.0, true)]
    ensures EndsInStreak(TEN_MINUTES, "q", 0) && EndsInStreak(A_DAY, "q", 0)
  {
    SeenWaiting([], 0.0);
    assert [] + [Waiting(0.0)] == [Waiting(0.0)];
    assert History([Waiting(0.0)], "q") == [Obs(0.0, true)];
    SeenWaiting([Waiting(0.0)], 600.0);
    SeenWaiting(TEN_MINUTES, 86400.0);
  }

  lemma DayRenewals()
    ensures Renewed([Obs(0.0, true), Obs(600.0, true)], 0) == 0
    ensures Renewed([Obs(0.0, true), Obs(600.0, true), Obs(86400.0, true)], 0) == 2
  {
    var h := [Obs(0.0, true), Obs(600.0, true), Obs(86400.0, true)];
    assert h[..2] == [Obs(0.0, true), Obs(600.0, true)] && h[..2][..1] == [Obs(0.0, true)];
    assert Renewed(h[..2], 0) == 0;
  }

  /** An outage that nothing interrupts: after ten minutes it is reported; the run a day after it began,
      with the work still waiting, is silent. */
  lemma OutageGoesQuiet()
    ensures EndsInStreak(TEN_MINUTES, "q", 0) && Reported(TEN_MINUTES, "q", GRACE)
    ensures EndsInStreak(A_DAY, "q", 0) && Overdue(0.0, 86400.0, GRACE) && !Reported(A_DAY, "q", GRACE)
  {
    DayOfSightings();
    DayRenewals();
    AlertIsRenewal(TEN_MINUTES, "q", GRACE, 0);
    AlertIsRenewal(A_DAY, "q", GRACE, 0);
  }
}
