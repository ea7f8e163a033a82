/** Uploading a finished run's artifacts and registering their rows
    (src/meshpipeline/application/artifact_uploader.py, artifact_repository.py). */
module Artifacts {
  import opened Wrappers

  /** What the object store holds under a key, as far as delivery compares it. */
  datatype Obj = Obj(size: nat, checksum: Option<string>)

  datatype Row = Row(kind: string, storageKey: string, obj: Obj, generation: nat, attempt: nat)

  datatype Planned = Planned(kind: string, logicalKey: string, objectKey: string, required: bool)

  datatype Orphan = Orphan(objectKey: string, obj: Obj, logicalKey: string, kind: string, attempt: nat)

  datatype Outcome = Created | Updated | Idempotent | Superseded | Conflict

  datatype Delivered = Delivered(kind: string, storageKey: string, obj: Obj, outcome: Outcome)

  datatype Report = Report(delivered: seq<Delivered>, optionalFailures: seq<string>, orphans: seq<Orphan>,
                           stored: seq<Orphan>)

  /** How the outside world answers for one planned item: whether its source is a regular file, what
      the upload stored, whether that passes the integrity check, and whether the row write and a
      delete of the object go through. */
  datatype Weather = Weather(source: bool, upload: Option<Obj>, intact: bool, write: bool, delete: bool)

  /** The claim's currency a row is written with. */
  datatype Currency = Currency(generation: nat, attempt: nat)

  /** The rows the transaction sees, the object store, and the report so far. */
  datatype State = State(rows: map<string, Row>, store: map<string, Obj>, report: Report)

  const EMPTY := Report([], [], [], [])

  function CurrencyOf(r: Row): Currency { Currency(r.generation, r.attempt) }

  predicate Below(a: Currency, b: Currency) {
    a.generation < b.generation || (a.generation == b.generation && a.attempt < b.attempt)
  }

  predicate AtMost(a: Currency, b: Currency) { a == b || Below(a, b) }

  /** One insert that overwrites only an older row, or the same attempt's with the same content; when
      it writes nothing, the incumbent row says why. */
  function DeliverArtifact(rows: map<string, Row>, p: Planned, obj: Obj, c: Currency): (map<string, Row>, Outcome) {
    var row := Row(p.kind, p.objectKey, obj, c.generation, c.attempt);
    if p.logicalKey !in rows
       || Below(CurrencyOf(rows[p.logicalKey]), c)
       || (CurrencyOf(rows[p.logicalKey]) == c && rows[p.logicalKey].obj.checksum == obj.checksum)
    then (rows[p.logicalKey := row], if row.storageKey == p.objectKey then Created else Updated)
    else
      var incumbent := rows[p.logicalKey];
      if Below(c, CurrencyOf(incumbent)) then (rows, Superseded)
      else if CurrencyOf(incumbent) == c && incumbent.storageKey == p.objectKey
          && incumbent.obj.checksum == obj.checksum
      then (rows, Idempotent)
      else (rows, Conflict)
  }

  function OrphanOf(p: Planned, obj: Obj, c: Currency): Orphan {
    Orphan(p.objectKey, obj, p.logicalKey, p.kind, c.attempt)
  }

  /** The object is deleted, or else put on the report for reconciliation. */
  function Discarded(s: State, o: Orphan, delete: bool): State {
    if delete then s.(store := s.store - {o.objectKey})
    else s.(report := s.report.(orphans := s.report.orphans + [o]))
  }

  /** A required item that fails aborts the call with the orphans it names; an optional one is noted. */
  function Failing(s: State, p: Planned, orphans: seq<Orphan>): (State, Option<seq<Orphan>>) {
    if p.required then (s, Some(orphans))
    else (s.(report := s.report.(optionalFailures := s.report.optionalFailures + [p.kind])), None)
  }

  function Item(s: State, p: Planned, w: Weather, c: Currency): (State, Option<seq<Orphan>>) {
    if !w.source || w.upload.None? then Failing(s, p, [])
    else
      var obj := w.upload.value;
      var o := OrphanOf(p, obj, c);
      var put := s.(store := s.store[p.objectKey := obj]);
      var lost := if w.delete then [] else [o];
      if !w.intact || !w.write then Failing(Discarded(put, o, w.delete), p, lost)
      else
        var (rows, outcome) := DeliverArtifact(s.rows, p, obj, c);
        if outcome == Conflict then Failing(Discarded(put, o, w.delete), p, lost)
        else
          (put.(rows := rows,
                report := s.report.(delivered := s.report.delivered + [Delivered(p.kind, p.objectKey, obj, outcome)],
                                    stored := s.report.stored + [o])), None)
  }

  /** The first `k` planned items, up to the first that aborts the call. */
  function Items(s: State, plan: seq<Planned>, ws: seq<Weather>, c: Currency, k: nat): (State, Option<seq<Orphan>>)
    requires k <= |plan| == |ws|
  {
    if k == 0 then (s, None)
    else
      var (before, raised) := Items(s, plan, ws, c, k - 1);
      if raised.Some? then (before, raised) else Item(before, plan[k - 1], ws[k - 1], c)
  }

  predicate PromisesSomething(plan: seq<Planned>) { exists p :: p in plan && p.required }

  function Uploaded(rows: map<string, Row>, store: map<string, Obj>, plan: seq<Planned>, ws: seq<Weather>,
                    c: Currency): (State, Option<seq<Orphan>>)
    requires |plan| == |ws|
  {
    if !PromisesSomething(plan) then (State(rows, store, EMPTY), Some([]))
    else Items(State(rows, store, EMPTY), plan, ws, c, |plan|)
  }

  predicate RequiredAllDelivered(plan: seq<Planned>, r: Report) {
    forall p :: p in plan && p.required ==> exists d :: d in r.delivered && d.kind == p.kind
  }

  // ---- the program ----------------------------------------------------------------------------------

  class Uploader {
    var rows: map<string, Row>
    var store: map<string, Obj>
    var report: Report

    ghost function Current(): State
      reads this
    {
      State(rows, store, report)
    }

    constructor (rows: map<string, Row>, store: map<string, Obj>)
      ensures Current() == State(rows, store, EMPTY)
    {
      this.rows, this.store, report := rows, store, EMPTY;
    }

    method ReconcileOrDelete(o: Orphan, delete: bool) returns (left: seq<Orphan>)
      modifies this
      ensures Current() == Discarded(old(Current()), o, delete)
      ensures left == if delete then [] else [o]
    {
      if delete {
        store := store - {o.objectKey};
        return [];
      }
      report := report.(orphans := report.orphans + [o]);
      return [o];
    }

    method Deliver(p: Planned, obj: Obj, c: Currency) returns (outcome: Outcome)
      modifies this
      ensures (rows, outcome) == DeliverArtifact(old(rows), p, obj, c)
      ensures store == old(store) && report == old(report)
    {
      var result := DeliverArtifact(rows, p, obj, c);
      rows, outcome := result.0, result.1;
    }

    method NoteOptional(p: Planned)
      modifies this
      ensures Current() == Failing(old(Current()), p.(required := false), []).0
    {
      report := report.(optionalFailures := report.optionalFailures + [p.kind]);
    }

    /** One pass of the plan's loop; `Some` is the exception, with the orphans it carries. */
    method UploadItem(p: Planned, w: Weather, c: Currency) returns (raised: Option<seq<Orphan>>)
      modifies this
      ensures (Current(), raised) == Item(old(Current()), p, w, c)
    {
      if !w.source || w.upload.None? {
        if p.required {
          return Some([]);
        }
        NoteOptional(p);
        return None;
      }
      var obj := w.upload.value;
      store := store[p.objectKey := obj];
      var o := OrphanOf(p, obj, c);
      var outcome := Conflict;
      if w.intact && w.write {
        outcome := Deliver(p, obj, c);
      }
      if outcome == Conflict {
        var left := ReconcileOrDelete(o, w.delete);
        if p.required {
          return Some(left);
        }
        NoteOptional(p);
        return None;
      }
      report := report.(delivered := report.delivered + [Delivered(p.kind, p.objectKey, obj, outcome)],
                        stored := report.stored + [o]);
      return None;
    }

    method UploadJobArtifacts(plan: seq<Planned>, ws: seq<Weather>, c: Currency) returns (raised: Option<seq<Orphan>>)
      requires |plan| == |ws| && report == EMPTY
      modifies this
      ensures (Current(), raised) == Uploaded(old(rows), old(store), plan, ws, c)
    {
      if !exists p :: p in plan && p.required {
        return Some([]);
      }
      raised := None;
      var k := 0;
      while k < |plan|
        invariant 0 <= k <= |plan| && raised.None?
        invariant (Current(), raised) == Items(old(Current()), plan, ws, c, k)
      {
        raised := UploadItem(plan[k], ws[k], c);
        k := k + 1;
        if raised.Some? {
          RaisedStays(old(Current()), plan, ws, c, k, |plan|);
          return;
        }
      }
    }
  }

  lemma {:induction false} RaisedStays(s: State, plan: seq<Planned>, ws: seq<Weather>, c: Currency, j: nat, k: nat)
    requires j <= k <= |plan| == |ws| && Items(s, plan, ws, c, j).1.Some?
    ensures Items(s, plan, ws, c, k) == Items(s, plan, ws, c, j)
  {
    if j < k { RaisedStays(s, plan, ws, c, j, k - 1); }
  }

  // ---- rows ---------------------------------------------------------------------------------------------

  /** Every row still there, none replaced by an older one, and none of a newer claim touched. */
  ghost predicate NoneRegressed(before: map<string, Row>, after: map<string, Row>, c: Currency) {
    forall k :: k in before ==>
      && k in after && AtMost(CurrencyOf(before[k]), CurrencyOf(after[k]))
      && (Below(c, CurrencyOf(before[k])) ==> after[k] == before[k])
  }

  /** The row of this very attempt is there with other content. */
  predicate Clashes(rows: map<string, Row>, p: Planned, obj: Obj, c: Currency) {
    && p.logicalKey in rows && CurrencyOf(rows[p.logicalKey]) == c
    && rows[p.logicalKey].obj.checksum != obj.checksum
  }

  /** What registration promises: unless it conflicts, the logical artifact is ready at the caller's
      currency or a newer one; a conflict leaves the rows alone. */
  lemma Registered(rows: map<string, Row>, p: Planned, obj: Obj, c: Currency)
    ensures var (after, outcome) := DeliverArtifact(rows, p, obj, c);
      && NoneRegressed(rows, after, c)
      && (outcome != Conflict ==> p.logicalKey in after && AtMost(c, CurrencyOf(after[p.logicalKey])))
      && (outcome == Conflict <==> Clashes(rows, p, obj, c))
      && (outcome == Superseded <==> p.logicalKey in rows && Below(c, CurrencyOf(rows[p.logicalKey])))
  {
  }

  /** Of the five outcomes the code names, the statement can return three: the key it compares with
      is the one it has just written, and an equal row of the same attempt is written again. */
  lemma OnlyThreeOutcomes(rows: map<string, Row>, p: Planned, obj: Obj, c: Currency)
    ensures DeliverArtifact(rows, p, obj, c).1 in {Created, Superseded, Conflict}
  {
  }

  lemma {:induction false} RowsAdvance(s: State, plan: seq<Planned>, ws: seq<Weather>, c: Currency, k: nat)
    requires k <= |plan| == |ws|
    ensures NoneRegressed(s.rows, Items(s, plan, ws, c, k).0.rows, c)
  {
    if k > 0 {
      RowsAdvance(s, plan, ws, c, k - 1);
      var (before, raised) := Items(s, plan, ws, c, k - 1);
      if raised.None? && ws[k - 1].upload.Some? {
        Registered(before.rows, plan[k - 1], ws[k - 1].upload.value, c);
      }
    }
  }

  /** Everything the report calls stored has a row of the caller's currency or newer. */
  ghost predicate AllReady(s: State, c: Currency) {
    forall o :: o in s.report.stored ==> o.logicalKey in s.rows && AtMost(c, CurrencyOf(s.rows[o.logicalKey]))
  }

  lemma ItemKeepsReady(s: State, p: Planned, w: Weather, c: Currency)
    requires AllReady(s, c)
    ensures AllReady(Item(s, p, w, c).0, c)
  {
    if w.upload.Some? { Registered(s.rows, p, w.upload.value, c); }
  }

  // ---- what one item does, read off its weather ------------------------------------------------------------

  predicate Attempted(w: Weather) { w.source && w.upload.Some? }

  predicate Succeeds(w: Weather, clash: bool) { Attempted(w) && w.intact && w.write && !clash }

  /** The object stays in the store although the item failed. */
  predicate Stuck(w: Weather, clash: bool) { Attempted(w) && !Succeeds(w, clash) && !w.delete }

  predicate ClashesWith(rows: map<string, Row>, p: Planned, w: Weather, c: Currency) {
    Attempted(w) && Clashes(rows, p, w.upload.value, c)
  }

  function Only(b: bool, p: Planned, w: Weather, c: Currency): (os: seq<Orphan>)
    requires b ==> Attempted(w)
  {
    if b then [OrphanOf(p, w.upload.value, c)] else []
  }

  /** An item aborts the call exactly if it is required and does not land, and then names its object if
      that stays; its object is reported as stored if it lands and as an orphan if it stays otherwise. */
  lemma ItemOutcome(s: State, p: Planned, w: Weather, c: Currency)
    ensures var (after, raised) := Item(s, p, w, c);
      var clash := ClashesWith(s.rows, p, w, c);
      && raised == (if p.required && !Succeeds(w, clash) then Some(Only(Stuck(w, clash), p, w, c)) else None)
      && after.report.stored == s.report.stored + Only(Succeeds(w, clash), p, w, c)
      && after.report.orphans == s.report.orphans + Only(Stuck(w, clash), p, w, c)
  {
    if Attempted(w) { Registered(s.rows, p, w.upload.value, c); }
  }

  /** The object is in the store afterwards exactly if the item landed or it stays. */
  lemma ItemStore(s: State, p: Planned, w: Weather, c: Currency)
    ensures var clash := ClashesWith(s.rows, p, w, c);
      Item(s, p, w, c).0.store ==
        if !Attempted(w) then s.store
        else if Succeeds(w, clash) || Stuck(w, clash) then s.store[p.objectKey := w.upload.value]
        else s.store - {p.objectKey}
  {
    if Attempted(w) { Registered(s.rows, p, w.upload.value, c); }
  }

  /** The rows change by the item's own row alone, and only if it lands on one that is no newer. */
  lemma ItemRows(s: State, p: Planned, w: Weather, c: Currency)
    ensures var clash := ClashesWith(s.rows, p, w, c);
      Item(s, p, w, c).0.rows ==
        if Succeeds(w, clash) && (p.logicalKey in s.rows ==> AtMost(CurrencyOf(s.rows[p.logicalKey]), c))
        then s.rows[p.logicalKey := Row(p.kind, p.objectKey, w.upload.value, c.generation, c.attempt)]
        else s.rows
  {
    if Attempted(w) { Registered(s.rows, p, w.upload.value, c); }
  }

  // ---- accounting -----------------------------------------------------------------------------------------

  datatype Filed = Filed(kind: string, logicalKey: string, objectKey: string)

  /** The planned items that `landed` marks, and those it does not. */
  function Landed(plan: seq<Planned>, landed: seq<bool>): seq<Filed>
    requires |plan| == |landed|
  {
    if plan == [] then []
    else
      var n := |plan| - 1;
      Landed(plan[..n], landed[..n])
      + if landed[n] then [Filed(plan[n].kind, plan[n].logicalKey, plan[n].objectKey)] else []
  }

  function Missed(plan: seq<Planned>, landed: seq<bool>): seq<string>
    requires |plan| == |landed|
  {
    if plan == [] then []
    else
      var n := |plan| - 1;
      Missed(plan[..n], landed[..n]) + if landed[n] then [] else [plan[n].kind]
  }

  function Files(os: seq<Orphan>): (r: seq<Filed>)
    ensures |r| == |os| && forall i :: 0 <= i < |os| ==> r[i] == Filed(os[i].kind, os[i].logicalKey, os[i].objectKey)
  {
    seq(|os|, i requires 0 <= i < |os| => Filed(os[i].kind, os[i].logicalKey, os[i].objectKey))
  }

  /** `landed` tells, item by item, which of the report's lists the item is in; required ones landed. */
  ghost predicate Accounts(plan: seq<Planned>, landed: seq<bool>, r: Report) {
    && |plan| == |landed|
    && Files(r.stored) == Landed(plan, landed)
    && r.optionalFailures == Missed(plan, landed)
    && (forall i :: 0 <= i < |plan| && plan[i].required ==> landed[i])
    && |r.delivered| == |r.stored| && |r.orphans| <= |r.optionalFailures|
    && (forall i :: 0 <= i < |r.delivered| ==>
        r.delivered[i].kind == r.stored[i].kind && r.delivered[i].storageKey == r.stored[i].objectKey)
  }

  lemma ItemAccounts(s: State, plan: seq<Planned>, landed: seq<bool>, k: nat, w: Weather, c: Currency)
    returns (longer: seq<bool>)
    requires k < |plan| && Accounts(plan[..k], landed, s.report) && Item(s, plan[k], w, c).1.None?
    ensures Accounts(plan[..k + 1], longer, Item(s, plan[k], w, c).0.report)
  {
    var after := Item(s, plan[k], w, c).0;
    longer := landed + [|after.report.stored| > |s.report.stored|];
    assert plan[..k + 1][..k] == plan[..k] && longer[..k] == landed;
    if longer[k] {
      assert Files(after.report.stored)
          == Files(s.report.stored) + [Filed(plan[k].kind, plan[k].logicalKey, plan[k].objectKey)];
    }
  }

  lemma {:induction false} ItemsAccount(s: State, plan: seq<Planned>, ws: seq<Weather>, c: Currency, k: nat)
    returns (landed: seq<bool>)
    requires k <= |plan| == |ws| && s.report == EMPTY && Items(s, plan, ws, c, k).1.None?
    ensures Accounts(plan[..k], landed, Items(s, plan, ws, c, k).0.report)
  {
    if k == 0 {
      landed := [];
    } else {
      var front := ItemsAccount(s, plan, ws, c, k - 1);
      landed := ItemAccounts(Items(s, plan, ws, c, k - 1).0, plan, front, k - 1, ws[k - 1], c);
    }
  }

  /** Each object in the store was there before, or the report answers for it. */
  ghost predicate ObjectsAccounted(was: map<string, Obj>, s: State) {
    forall k :: k in s.store ==>
      || (k in was && s.store[k] == was[k])
      || (exists o :: o in s.report.stored && o.objectKey == k)
      || (exists o :: o in s.report.orphans && o.objectKey == k)
  }

  lemma ReportsGrow(s: State, p: Planned, w: Weather, c: Currency)
    ensures forall o :: o in s.report.stored ==> o in Item(s, p, w, c).0.report.stored
    ensures forall o :: o in s.report.orphans ==> o in Item(s, p, w, c).0.report.orphans
    ensures w.source && w.upload.Some? ==>
      var (after, o) := (Item(s, p, w, c).0, OrphanOf(p, w.upload.value, c));
      o in after.report.stored || o in after.report.orphans || p.objectKey !in after.store
    ensures forall k :: k in Item(s, p, w, c).0.store && k != p.objectKey ==>
        k in s.store && s.store[k] == Item(s, p, w, c).0.store[k]
    ensures !w.source || w.upload.None? ==> Item(s, p, w, c).0.store == s.store
  {
  }

  lemma ItemAccountsObjects(was: map<string, Obj>, s: State, p: Planned, w: Weather, c: Currency)
    requires ObjectsAccounted(was, s)
    ensures ObjectsAccounted(was, Item(s, p, w, c).0)
  {
    var after := Item(s, p, w, c).0;
    ReportsGrow(s, p, w, c);
    forall k | k in after.store
      ensures (k in was && after.store[k] == was[k])
        || (exists o :: o in after.report.stored && o.objectKey == k)
        || (exists o :: o in after.report.orphans && o.objectKey == k) {
      if k == p.objectKey && w.source && w.upload.Some? {
        assert OrphanOf(p, w.upload.value, c).objectKey == k;
      } else {
        assert k in s.store && s.store[k] == after.store[k];
      }
    }
  }

  lemma {:induction false} ItemsKeep(s: State, plan: seq<Planned>, ws: seq<Weather>, c: Currency, k: nat)
    requires k <= |plan| == |ws| && s.report == EMPTY
    ensures ObjectsAccounted(s.store, Items(s, plan, ws, c, k).0) && AllReady(Items(s, plan, ws, c, k).0, c)
  {
    if k > 0 {
      ItemsKeep(s, plan, ws, c, k - 1);
      var (before, raised) := Items(s, plan, ws, c, k - 1);
      if raised.None? {
        ItemAccountsObjects(s.store, before, plan[k - 1], ws[k - 1], c);
        ItemKeepsReady(before, plan[k - 1], ws[k - 1], c);
      }
    }
  }

  lemma {:induction false} LandedIn(plan: seq<Planned>, landed: seq<bool>, i: nat)
    requires |plan| == |landed| && i < |plan| && landed[i]
    ensures Filed(plan[i].kind, plan[i].logicalKey, plan[i].objectKey) in Landed(plan, landed)
  {
    if i < |plan| - 1 { LandedIn(plan[..|plan| - 1], landed[..|plan| - 1], i); }
  }

  lemma RequiredLanded(plan: seq<Planned>, landed: seq<bool>, r: Report, p: Planned) returns (j: nat)
    requires Accounts(plan, landed, r) && p in plan && p.required
    ensures j < |r.stored| && r.stored[j].logicalKey == p.logicalKey && r.stored[j].objectKey == p.objectKey
    ensures r.delivered[j].kind == p.kind
  {
    var i :| 0 <= i < |plan| && plan[i] == p;
    LandedIn(plan, landed, i);
    j :| 0 <= j < |r.stored| && Files(r.stored)[j] == Filed(p.kind, p.logicalKey, p.objectKey);
  }

  lemma AllRequiredDelivered(plan: seq<Planned>, landed: seq<bool>, r: Report)
    requires Accounts(plan, landed, r)
    ensures RequiredAllDelivered(plan, r)
  {
    forall p | p in plan && p.required ensures exists d :: d in r.delivered && d.kind == p.kind {
      var j := RequiredLanded(plan, landed, r, p);
      assert r.delivered[j] in r.delivered;
    }
  }

  /** NOTHING UNACCOUNTED FOR. When the upload returns normally, each planned item is in exactly one of
      delivered and optional failures, no required one in the latter, and the call promised something;
      everything stored is registered, deleted or listed as an orphan; and no row went backward. */
  lemma UploadAccounts(rows: map<string, Row>, store: map<string, Obj>, plan: seq<Planned>, ws: seq<Weather>,
                       c: Currency)
    returns (landed: seq<bool>)
    requires |plan| == |ws| && Uploaded(rows, store, plan, ws, c).1.None?
    ensures var after := Uploaded(rows, store, plan, ws, c).0;
      && Accounts(plan, landed, after.report)
      && PromisesSomething(plan) && RequiredAllDelivered(plan, after.report)
      && ObjectsAccounted(store, after)
      && AllReady(after, c)
      && NoneRegressed(rows, after.rows, c)
  {
    var s := State(rows, store, EMPTY);
    var after := Uploaded(rows, store, plan, ws, c).0;
    landed := ItemsAccount(s, plan, ws, c, |plan|);
    assert plan[..|plan|] == plan;
    ItemsKeep(s, plan, ws, c, |plan|);
    RowsAdvance(s, plan, ws, c, |plan|);
    AllRequiredDelivered(plan, landed, after.report);
  }

  // ---- what the object behind an older row goes through ------------------------------------------------

  /** The store holds the object the row points to. */
  predicate Fetches(r: Row, store: map<string, Obj>) {
    r.storageKey in store && store[r.storageKey].checksum == r.obj.checksum
  }

  predicate Fetchable(s: State, logicalKey: string) {
    logicalKey in s.rows && Fetches(s.rows[logicalKey], s.store)
  }

  /** Objects are uploaded under the same key at every attempt, so an item works on the object that an
      earlier row points to: afterwards the row can be fetched exactly when the upload did not happen,
      or was registered as this call's row, or stored the same content and left it there. */
  lemma EarlierRowStaysFetchableIff(s: State, p: Planned, w: Weather, c: Currency)
    requires Fetchable(s, p.logicalKey) && s.rows[p.logicalKey].storageKey == p.objectKey
    ensures var row := s.rows[p.logicalKey];
      var lands := Succeeds(w, ClashesWith(s.rows, p, w, c));
      Fetchable(Item(s, p, w, c).0, p.logicalKey)
      <==> || !Attempted(w)
           || (lands && !Below(c, CurrencyOf(row)))
           || (w.upload.value.checksum == row.obj.checksum && (lands || !w.delete))
  {
    ItemStore(s, p, w, c);
    ItemRows(s, p, w, c);
  }
}
