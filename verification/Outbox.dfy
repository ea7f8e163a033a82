/** Announcing terminal events from the transactional outbox: sweeps that overlap, crash and meet
    failing transports (src/meshpipeline/application/outbox_publisher.py,
    src/meshpipeline/persistence/repositories/terminal_outbox_repository.py). */
module Outbox {
  /** A row's deduplication key, unique in the table. */
  type Key = string

  /** How publishing one row went: sent and marked, sent although something then raised, or refused by
      the transport. */
  datatype Answer = Sent | SentThenRaised | NotSent

  /** An open sweep: the rows it claimed and locked, how many it has tried, and those its transaction
      marks published. */
  datatype Sweep = Sweep(claimed: seq<Key>, tried: nat, marked: set<Key>, published: nat, failed: nat, isOpen: bool)

  /** `rows` tells of each row whether it is published; `emitted` is what the channel carried. `lost`
      keeps, as history, each emission whose mark was never committed. */
  datatype System = System(rows: map<Key, bool>, emitted: seq<Key>, sweeps: seq<Sweep>, lost: multiset<Key>)

  datatype Action =
    | Enqueue(key: Key)
    | Claim(keys: seq<Key>)
    | Publish(i: nat, answer: Answer)
    | Commit(i: nat)
    | Crash(i: nat)

  predicate Free(s: System, key: Key) {
    key in s.rows && !s.rows[key] && forall w :: w in s.sweeps && w.isOpen ==> key !in w.claimed
  }

  /** Rows still pending and locked by no other sweep, each once. */
  predicate CanClaim(s: System, keys: seq<Key>) {
    (forall k :: k in keys ==> Free(s, k)) && (forall i, j :: 0 <= i < j < |keys| ==> keys[i] != keys[j])
  }

  predicate Trying(s: System, i: nat) {
    i < |s.sweeps| && s.sweeps[i].isOpen && s.sweeps[i].tried < |s.sweeps[i].claimed|
  }

  /** The event goes out; the row is marked only if nothing was raised. */
  function Tried(w: Sweep, answer: Answer): Sweep
    requires w.tried < |w.claimed|
  {
    var key := w.claimed[w.tried];
    if answer.Sent?
    then w.(tried := w.tried + 1, marked := w.marked + {key}, published := w.published + 1)
    else w.(tried := w.tried + 1, failed := w.failed + 1)
  }

  function Published(s: System, i: nat, answer: Answer): System
    requires Trying(s, i)
  {
    var w := s.sweeps[i];
    var key := w.claimed[w.tried];
    s.(emitted := if !answer.NotSent? then s.emitted + [key] else s.emitted,
       sweeps := s.sweeps[i := Tried(w, answer)],
       lost := if answer.SentThenRaised? then s.lost + multiset{key} else s.lost)
  }

  function MarkAll(rows: map<Key, bool>, marked: set<Key>): map<Key, bool> {
    map k | k in rows :: rows[k] || k in marked
  }

  predicate Done(s: System, i: nat) {
    i < |s.sweeps| && s.sweeps[i].isOpen && s.sweeps[i].tried == |s.sweeps[i].claimed|
  }

  function Step(s: System, a: Action): System {
    match a
    case Enqueue(key) => if key in s.rows then s else s.(rows := s.rows[key := false])
    case Claim(keys) => if CanClaim(s, keys) then s.(sweeps := s.sweeps + [Sweep(keys, 0, {}, 0, 0, true)]) else s
    case Publish(i, answer) => if Trying(s, i) then Published(s, i, answer) else s
    case Commit(i) =>
      if Done(s, i)
      then s.(rows := MarkAll(s.rows, s.sweeps[i].marked), sweeps := s.sweeps[i := s.sweeps[i].(isOpen := false)])
      else s
    case Crash(i) =>
      if i < |s.sweeps| && s.sweeps[i].isOpen
      then s.(sweeps := s.sweeps[i := s.sweeps[i].(isOpen := false)], lost := s.lost + multiset(s.sweeps[i].marked))
      else s
  }

  function Run(s: System, actions: seq<Action>): System {
    if actions == [] then s else Step(Run(s, actions[..|actions| - 1]), actions[|actions| - 1])
  }

  function Start(): System { System(map[], [], [], multiset{}) }

  // ---- the program: one sweep ---------------------------------------------------------------------------

  /** The sweep after its first `k` rows. */
  function SweptTo(keys: seq<Key>, answers: seq<Answer>, k: nat): (w: Sweep)
    requires k <= |keys| == |answers|
    ensures w.claimed == keys && w.tried == k
  {
    if k == 0 then Sweep(keys, 0, {}, 0, 0, true) else Tried(SweptTo(keys, answers, k - 1), answers[k - 1])
  }

  /** What the channel carries meanwhile. */
  function SentTo(keys: seq<Key>, answers: seq<Answer>, k: nat): seq<Key>
    requires k <= |keys| == |answers|
  {
    if k == 0 then []
    else SentTo(keys, answers, k - 1) + if !answers[k - 1].NotSent? then [keys[k - 1]] else []
  }

  datatype Stats = Stats(published: nat, failed: nat, scanned: nat)

  /** The loop over the claimed rows: what it sent, what it marks, and what it reports. */
  method PublishPending(keys: seq<Key>, answers: seq<Answer>) returns (sent: seq<Key>, marked: set<Key>, stats: Stats)
    requires |keys| == |answers|
    ensures sent == SentTo(keys, answers, |keys|) && marked == SweptTo(keys, answers, |keys|).marked
    ensures stats.published + stats.failed == stats.scanned == |keys|
    ensures stats.published == SweptTo(keys, answers, |keys|).published
    ensures forall k :: k in marked ==> k in sent
  {
    var published, failed := 0, 0;
    sent, marked := [], {};
    for n := 0 to |keys|
      invariant sent == SentTo(keys, answers, n) && marked == SweptTo(keys, answers, n).marked
      invariant published == SweptTo(keys, answers, n).published && failed == SweptTo(keys, answers, n).failed
      invariant published + failed == n && forall k :: k in marked ==> k in sent
    {
      if !answers[n].NotSent? {
        sent := sent + [keys[n]];
      }
      if answers[n].Sent? {
        marked := marked + {keys[n]};
        published := published + 1;
      } else {
        failed := failed + 1;
      }
    }
    stats := Stats(published, failed, |keys|);
  }

  function Tries(i: nat, answers: seq<Answer>, k: nat): (r: seq<Action>)
    requires k <= |answers|
    ensures |r| == k
  {
    if k == 0 then [] else Tries(i, answers, k - 1) + [Publish(i, answers[k - 1])]
  }

  lemma {:induction false} RunMore(s: System, actions: seq<Action>, a: Action)
    ensures Run(s, actions + [a]) == Step(Run(s, actions), a)
  {
    assert (actions + [a])[..|actions|] == actions;
  }

  lemma OneMoreTry(t: System, sweeps: seq<Sweep>, w: Sweep, answer: Answer)
    requires t.sweeps == sweeps + [w] && w.isOpen && w.tried < |w.claimed|
    ensures var u := Step(t, Publish(|sweeps|, answer));
      && u.sweeps == sweeps + [Tried(w, answer)] && u.rows == t.rows
      && u.emitted == t.emitted + if !answer.NotSent? then [w.claimed[w.tried]] else []
  {
  }

  lemma {:induction false} SweptStaysOpen(keys: seq<Key>, answers: seq<Answer>, k: nat)
    requires k <= |keys| == |answers|
    ensures SweptTo(keys, answers, k).isOpen
  {
    if k > 0 { SweptStaysOpen(keys, answers, k - 1); }
  }

  /** A sweep of the system that nothing interrupts does what the loop does. */
  lemma {:induction false} SweepIsTheLoop(s: System, keys: seq<Key>, answers: seq<Answer>, k: nat)
    requires CanClaim(s, keys) && k <= |keys| == |answers|
    ensures var t := Run(Step(s, Claim(keys)), Tries(|s.sweeps|, answers, k));
      && t.sweeps == s.sweeps + [SweptTo(keys, answers, k)]
      && t.emitted == s.emitted + SentTo(keys, answers, k) && t.rows == s.rows
  {
    if k > 0 {
      var actions := Tries(|s.sweeps|, answers, k - 1);
      SweepIsTheLoop(s, keys, answers, k - 1);
      SweptStaysOpen(keys, answers, k - 1);
      RunMore(Step(s, Claim(keys)), actions, Publish(|s.sweeps|, answers[k - 1]));
      OneMoreTry(Run(Step(s, Claim(keys)), actions), s.sweeps, SweptTo(keys, answers, k - 1), answers[k - 1]);
    }
  }

  // ---- the invariant ----------------------------------------------------------------------------------------

  /** An open sweep holds pending rows, each once, and marks only what it has tried. */
  ghost predicate SweepOk(w: Sweep, rows: map<Key, bool>) {
    && (forall k :: k in w.claimed ==> k in rows && !rows[k])
    && (forall i, j :: 0 <= i < j < |w.claimed| ==> w.claimed[i] != w.claimed[j])
    && w.tried <= |w.claimed|
    && (forall k :: k in w.marked ==> k in w.claimed[..w.tried])
    && w.published + w.failed == w.tried && w.published == |w.marked|
  }

  function OpenMarks(sweeps: seq<Sweep>, key: Key): nat {
    if sweeps == [] then 0
    else
      var w := sweeps[|sweeps| - 1];
      OpenMarks(sweeps[..|sweeps| - 1], key) + if w.isOpen && key in w.marked then 1 else 0
  }

  function PublishedOnce(rows: map<Key, bool>, key: Key): nat { if key in rows && rows[key] then 1 else 0 }

  ghost predicate Apart(sweeps: seq<Sweep>) {
    forall i, j, k :: 0 <= i < j < |sweeps| && sweeps[i].isOpen && sweeps[j].isOpen && k in sweeps[i].claimed ==>
        k !in sweeps[j].claimed
  }

  /** Every emission of a key is accounted for: its committed mark, an open one, or a lost one. */
  ghost predicate Counted(s: System) {
    forall k :: multiset(s.emitted)[k] == s.lost[k] + PublishedOnce(s.rows, k) + OpenMarks(s.sweeps, k)
  }

  ghost predicate Inv(s: System) {
    && (forall w :: w in s.sweeps && w.isOpen ==> SweepOk(w, s.rows))
    && Apart(s.sweeps) && Counted(s)
  }

  lemma {:induction false} OneChanged(sweeps: seq<Sweep>, i: nat, w: Sweep, key: Key)
    requires i < |sweeps|
    ensures OpenMarks(sweeps[i := w], key) + (if sweeps[i].isOpen && key in sweeps[i].marked then 1 else 0)
         == OpenMarks(sweeps, key) + if w.isOpen && key in w.marked then 1 else 0
  {
    var n := |sweeps| - 1;
    var after := sweeps[i := w];
    if i == n {
      assert after[..n] == sweeps[..n];
    } else {
      OneChanged(sweeps[..n], i, w, key);
      assert after[..n] == sweeps[..n][i := w];
    }
  }

  lemma ClaimKeeps(s: System, keys: seq<Key>)
    requires Inv(s) && CanClaim(s, keys)
    ensures Inv(Step(s, Claim(keys)))
  {
    var t := Step(s, Claim(keys));
    forall w | w in t.sweeps && w.isOpen ensures SweepOk(w, t.rows) {
      if w !in s.sweeps { assert w == t.sweeps[|s.sweeps|]; }
    }
    forall i, j, k | 0 <= i < j < |t.sweeps| && t.sweeps[i].isOpen && t.sweeps[j].isOpen && k in t.sweeps[i].claimed
      ensures k !in t.sweeps[j].claimed {
      if j == |s.sweeps| { assert s.sweeps[i] in s.sweeps; }
    }
    assert t.sweeps[..|t.sweeps| - 1] == s.sweeps;
  }

  lemma TriedIsOk(w: Sweep, answer: Answer, rows: map<Key, bool>)
    requires SweepOk(w, rows) && w.tried < |w.claimed|
    ensures SweepOk(Tried(w, answer), rows) && w.claimed[w.tried] !in w.marked
  {
    assert w.claimed[..w.tried + 1] == w.claimed[..w.tried] + [w.claimed[w.tried]];
  }

  /** A sweep replaced by one with the same claims, or a closed one, stays apart from the others. */
  lemma ReplacedApart(sweeps: seq<Sweep>, i: nat, w: Sweep)
    requires i < |sweeps| && Apart(sweeps) && sweeps[i].isOpen && (w.isOpen ==> w.claimed == sweeps[i].claimed)
    ensures Apart(sweeps[i := w])
  {
  }

  lemma PublishKeeps(s: System, i: nat, answer: Answer)
    requires Inv(s) && Trying(s, i)
    ensures Inv(Published(s, i, answer))
  {
    var t, w := Published(s, i, answer), s.sweeps[i];
    var key := w.claimed[w.tried];
    assert w in s.sweeps;
    TriedIsOk(w, answer, s.rows);
    ReplacedApart(s.sweeps, i, Tried(w, answer));
    forall k ensures multiset(t.emitted)[k] == t.lost[k] + PublishedOnce(t.rows, k) + OpenMarks(t.sweeps, k) {
      OneChanged(s.sweeps, i, Tried(w, answer), k);
    }
  }

  lemma {:induction false} NoOpenMark(sweeps: seq<Sweep>, key: Key)
    requires forall w :: w in sweeps && w.isOpen ==> key !in w.marked
    ensures OpenMarks(sweeps, key) == 0
  {
    if sweeps != [] {
      NoOpenMark(sweeps[..|sweeps| - 1], key);
      assert sweeps[|sweeps| - 1] in sweeps;
    }
  }

  lemma MarkedIsClaimed(s: System, w: Sweep, k: Key)
    requires Inv(s) && w in s.sweeps && w.isOpen && k in w.marked
    ensures k in w.claimed && k in s.rows && !s.rows[k]
  {
    assert k in w.claimed[..w.tried];
  }

  lemma CommitKeeps(s: System, i: nat)
    requires Inv(s) && Done(s, i)
    ensures Inv(Step(s, Commit(i)))
  {
    var t, w := Step(s, Commit(i)), s.sweeps[i];
    assert w in s.sweeps;
    ReplacedApart(s.sweeps, i, w.(isOpen := false));
    forall j | 0 <= j < |t.sweeps| && t.sweeps[j].isOpen ensures SweepOk(t.sweeps[j], t.rows) {
      OtherStaysOk(s, i, j);
    }
    forall k ensures multiset(t.emitted)[k] == t.lost[k] + PublishedOnce(t.rows, k) + OpenMarks(t.sweeps, k) {
      OneChanged(s.sweeps, i, w.(isOpen := false), k);
      if k in w.marked { MarkedIsClaimed(s, w, k); }
    }
  }

  lemma OtherStaysOk(s: System, i: nat, j: nat)
    requires Inv(s) && Done(s, i) && j < |s.sweeps| && j != i && s.sweeps[j].isOpen
    ensures SweepOk(s.sweeps[j], MarkAll(s.rows, s.sweeps[i].marked))
  {
    var w, v := s.sweeps[i], s.sweeps[j];
    assert w in s.sweeps && v in s.sweeps;
    forall k | k in v.claimed ensures k !in w.marked {
      if k in w.marked { MarkedIsClaimed(s, w, k); }
      assert if i < j then k in w.claimed ==> k !in v.claimed else k in v.claimed ==> k !in w.claimed;
    }
  }

  lemma CrashKeeps(s: System, i: nat)
    requires Inv(s) && i < |s.sweeps| && s.sweeps[i].isOpen
    ensures Inv(Step(s, Crash(i)))
  {
    var t, w := Step(s, Crash(i)), s.sweeps[i];
    ReplacedApart(s.sweeps, i, w.(isOpen := false));
    forall k ensures multiset(t.emitted)[k] == t.lost[k] + PublishedOnce(t.rows, k) + OpenMarks(t.sweeps, k) {
      OneChanged(s.sweeps, i, w.(isOpen := false), k);
    }
  }

  lemma EnqueueKeeps(s: System, key: Key)
    requires Inv(s) && key !in s.rows
    ensures Inv(Step(s, Enqueue(key)))
  {
    var t := Step(s, Enqueue(key));
    forall w | w in t.sweeps && w.isOpen ensures SweepOk(w, t.rows) {
    }
    forall k ensures PublishedOnce(t.rows, k) == PublishedOnce(s.rows, k) {
    }
  }

  lemma StepKeeps(s: System, a: Action)
    requires Inv(s)
    ensures Inv(Step(s, a))
  {
    match a
    case Enqueue(key) => if key !in s.rows { EnqueueKeeps(s, key); }
    case Claim(keys) => if CanClaim(s, keys) { ClaimKeeps(s, keys); }
    case Publish(i, answer) => if Trying(s, i) { PublishKeeps(s, i, answer); }
    case Commit(i) => if Done(s, i) { CommitKeeps(s, i); }
    case Crash(i) => if i < |s.sweeps| && s.sweeps[i].isOpen { CrashKeeps(s, i); }
  }

  lemma {:induction false} RunKeeps(actions: seq<Action>)
    ensures Inv(Run(Start(), actions))
  {
    if actions != [] {
      RunKeeps(actions[..|actions| - 1]);
      StepKeeps(Run(Start(), actions[..|actions| - 1]), actions[|actions| - 1]);
    }
  }

  // ---- what it means -----------------------------------------------------------------------------------------

  lemma {:induction false} AtMostOneHolder(sweeps: seq<Sweep>, rows: map<Key, bool>, key: Key)
    requires Apart(sweeps) && forall w :: w in sweeps && w.isOpen ==> SweepOk(w, rows)
    ensures OpenMarks(sweeps, key) <= 1
  {
    if sweeps != [] {
      var n := |sweeps| - 1;
      var w := sweeps[n];
      AtMostOneHolder(sweeps[..n], rows, key);
      assert w in sweeps;
      if w.isOpen && key in w.marked {
        assert key in w.claimed[..w.tried] && key in w.claimed;
        forall v | v in sweeps[..n] && v.isOpen ensures key !in v.marked {
          var j :| 0 <= j < n && sweeps[j] == v;
          assert v in sweeps && (key in v.claimed ==> key !in w.claimed);
          assert forall k :: k in v.marked ==> k in v.claimed[..v.tried] && k in v.claimed;
        }
        NoOpenMark(sweeps[..n], key);
      }
    }
  }

  lemma {:induction false} PublishedIsUnclaimed(s: System, key: Key)
    requires Inv(s) && key in s.rows && s.rows[key]
    ensures OpenMarks(s.sweeps, key) == 0
  {
    forall w | w in s.sweeps && w.isOpen ensures key !in w.marked {
      if key in w.marked { MarkedIsClaimed(s, w, key); }
    }
    NoOpenMark(s.sweeps, key);
  }

  /** AT LEAST ONCE, AND ONCE UNLESS A MARK WAS LOST. A published row's event was emitted: once, and once
      more for each emission whose sweep crashed or failed before its mark was committed. No event is
      emitted oftener. */
  lemma {:induction false} EmittedOncePlusLost(actions: seq<Action>, key: Key)
    ensures var s := Run(Start(), actions);
      && multiset(s.emitted)[key] <= 1 + s.lost[key]
      && (key in s.rows && s.rows[key] ==> key in s.emitted && multiset(s.emitted)[key] == 1 + s.lost[key])
  {
    var s := Run(Start(), actions);
    RunKeeps(actions);
    AtMostOneHolder(s.sweeps, s.rows, key);
    assert multiset(s.emitted)[key] == s.lost[key] + PublishedOnce(s.rows, key) + OpenMarks(s.sweeps, key);
    if key in s.rows && s.rows[key] {
      PublishedIsUnclaimed(s, key);
      assert key in multiset(s.emitted);
    }
  }

  /** No row disappears and no mark is taken back. */
  lemma {:induction false} RowsStay(s: System, actions: seq<Action>, key: Key)
    requires key in s.rows
    ensures key in Run(s, actions).rows && (s.rows[key] ==> Run(s, actions).rows[key])
  {
    if actions != [] { RowsStay(s, actions[..|actions| - 1], key); }
  }

  /** A row no open sweep holds is never stuck: one sweep whose transport works publishes it. */
  lemma PendingCanBePublished(s: System, key: Key)
    requires Free(s, key)
    ensures var i := |s.sweeps|;
      var t := Step(Step(Step(s, Claim([key])), Publish(i, Sent)), Commit(i));
      t.rows[key] && t.emitted == s.emitted + [key] && t.lost == s.lost
  {
    assert CanClaim(s, [key]);
  }

  lemma HeldByOne(s: System, i: nat, j: nat, key: Key)
    requires Inv(s) && i < |s.sweeps| && j < |s.sweeps| && i != j && s.sweeps[i].isOpen && s.sweeps[j].isOpen
    requires key in s.sweeps[i].claimed
    ensures key !in s.sweeps[j].claimed
  {
  }

  /** A sweep that ends lets go of its rows: after a crash all of them are pending and free again; after a commit,
      which comes only once every row was tried, those it marked are published and the others free. */
  lemma {:induction false} EndingReleases(actions: seq<Action>, i: nat, key: Key)
    requires var s := Run(Start(), actions); i < |s.sweeps| && s.sweeps[i].isOpen && key in s.sweeps[i].claimed
    ensures var s := Run(Start(), actions);
      && Free(Step(s, Crash(i)), key)
      && (s.sweeps[i].published + s.sweeps[i].failed == |s.sweeps[i].claimed| ==>
            var t := Step(s, Commit(i));
            key in t.rows && if key in s.sweeps[i].marked then t.rows[key] else Free(t, key))
      && (s.sweeps[i].published + s.sweeps[i].failed != |s.sweeps[i].claimed| ==> Step(s, Commit(i)) == s)
  {
    var s := Run(Start(), actions);
    RunKeeps(actions);
    var w := s.sweeps[i];
    assert w in s.sweeps && SweepOk(w, s.rows);
    var after := s.sweeps[i := w.(isOpen := false)];
    forall v | v in after && v.isOpen ensures key !in v.claimed {
      var j :| 0 <= j < |after| && after[j] == v;
      HeldByOne(s, i, j, key);
    }
  }

  /** What a consumer sees that drops keys it has seen. */
  function Deduplicated(emitted: seq<Key>): (r: seq<Key>)
    ensures forall k :: k in r <==> k in emitted
    ensures forall i, j :: 0 <= i < j < |r| ==> r[i] != r[j]
  {
    if emitted == [] then []
    else
      var n := |emitted| - 1;
      var front := Deduplicated(emitted[..n]);
      assert emitted == emitted[..n] + [emitted[n]];
      if emitted[n] in front then front else front + [emitted[n]]
  }

  /** So a deduplicating consumer sees each event at most once, and a published row's exactly once. */
  lemma {:induction false} ConsumerSeesOnce(actions: seq<Action>, key: Key)
    ensures var s := Run(Start(), actions);
      && multiset(Deduplicated(s.emitted))[key] <= 1
      && (key in s.rows && s.rows[key] ==> multiset(Deduplicated(s.emitted))[key] == 1)
  {
    var s := Run(Start(), actions);
    EmittedOncePlusLost(actions, key);
    OnceAtMost(Deduplicated(s.emitted), key);
    if key in s.rows && s.rows[key] { assert key in multiset(Deduplicated(s.emitted)); }
  }

  lemma {:induction false} OnceAtMost(s: seq<Key>, key: Key)
    requires forall i, j :: 0 <= i < j < |s| ==> s[i] != s[j]
    ensures multiset(s)[key] <= 1
  {
    if s != [] {
      assert s == [s[0]] + s[1..];
      OnceAtMost(s[1..], key);
      if s[0] == key { assert key !in s[1..]; }
    }
  }
}
