/** The migration that gives every row an organisation: three inserts and eight updates
    (alembic/versions/0004_tenant_columns.py). `owners` below is the distinct owners in the order the
    database happens to produce them. */
module Backfill {
  import opened Wrappers
  import opened Text
  import opened Sorting

  datatype User = User(id: nat, email: string)

  datatype Organization = Organization(id: nat, name: string, slug: Slug)

  datatype Membership = Membership(id: nat, user: nat, org: nat)

  /** A row of a table that scopes on its owner; either column may be NULL. */
  datatype Row = Row(owner: Option<string>, org: Option<nat>)

  type Tables = map<string, seq<Row>>

  /** `next` stands for the fresh identifiers the database generates. */
  datatype State = State(users: seq<User>, orgs: seq<Organization>, memberships: seq<Membership>, tables: Tables,
                         next: nat)

  /** An organisation's slug: the prefix with a digest of the owner, which takes distinct owners to
      distinct slugs, or any other text. */
  datatype Slug = BackfillSlug(hashed: string) | OtherSlug(text: string)

  const TENANT_TABLES := ["geometry_sources", "simulation_jobs", "chat_sessions", "geometry_interpretations",
                          "capture_operations", "artifact_reconciliations", "source_object_cleanups"]

  const OWNER_SOURCES := TENANT_TABLES + ["api_keys"]

  predicate Owned(r: Row) { r.owner.Some? && r.owner.value != "" }

  function RowsOf(tables: Tables, table: string): seq<Row> { if table in tables then tables[table] else [] }

  /** The union of the owners of every table, lowercased. */
  function Owners(tables: Tables): set<string> {
    set t, r | t in OWNER_SOURCES && r in RowsOf(tables, t) && Owned(r) :: Lower(r.owner.value)
  }

  ghost predicate Lists(owners: seq<string>, all: set<string>) {
    && (forall o :: o in owners <==> o in all)
    && (forall i, j :: 0 <= i < j < |owners| ==> owners[i] != owners[j])
  }

  function SlugOf(owner: string): Slug { BackfillSlug(Lower(owner)) }

  predicate HasEmail(users: seq<User>, email: string) { exists u :: u in users && u.email == email }

  predicate HasSlug(orgs: seq<Organization>, slug: Slug) { exists g :: g in orgs && g.slug == slug }

  predicate HasMembership(ms: seq<Membership>, user: nat, org: nat) {
    exists m :: m in ms && m.user == user && m.org == org
  }

  // ---- unique indexes -------------------------------------------------------------------------------

  ghost predicate UniqueEmails(users: seq<User>) {
    forall i, j :: 0 <= i < j < |users| ==> users[i].email != users[j].email
  }

  ghost predicate UniqueSlugs(orgs: seq<Organization>) {
    forall i, j :: 0 <= i < j < |orgs| ==> orgs[i].slug != orgs[j].slug
  }

  ghost predicate UniquePairs(ms: seq<Membership>) {
    forall i, j :: 0 <= i < j < |ms| ==> ms[i].user != ms[j].user || ms[i].org != ms[j].org
  }

  ghost predicate UniqueIds(s: State) {
    && (forall i, j :: 0 <= i < j < |s.users| ==> s.users[i].id != s.users[j].id)
    && (forall i, j :: 0 <= i < j < |s.orgs| ==> s.orgs[i].id != s.orgs[j].id)
    && (forall u :: u in s.users ==> u.id < s.next)
    && (forall g :: g in s.orgs ==> g.id < s.next)
  }

  ghost predicate Ok(s: State) {
    UniqueEmails(s.users) && UniqueSlugs(s.orgs) && UniquePairs(s.memberships) && UniqueIds(s)
  }

  // ---- the statements ---------------------------------------------------------------------------------

  /** The owners that look like addresses and have no user yet, as the statement's snapshot sees it. */
  function NewEmails(users: seq<User>): string -> Option<string> {
    o => if '@' in o && !HasEmail(users, Lower(o)) then Some(Lower(o)) else None
  }

  function NewOrgs(orgs: seq<Organization>): string -> Option<string> {
    o => if HasSlug(orgs, SlugOf(o)) then None else Some(o)
  }

  /** One row at a time against the unique index; a violation aborts the statement. */
  function InsertUsers(users: seq<User>, emails: seq<string>, next: nat): Option<seq<User>> {
    if emails == [] then Some(users)
    else
      var n := |emails| - 1;
      match InsertUsers(users, emails[..n], next)
      case None => None
      case Some(before) => if HasEmail(before, emails[n]) then None else Some(before + [User(next + n, emails[n])])
  }

  function InsertOrgs(orgs: seq<Organization>, owners: seq<string>, next: nat): Option<seq<Organization>> {
    if owners == [] then Some(orgs)
    else
      var n := |owners| - 1;
      match InsertOrgs(orgs, owners[..n], next)
      case None => None
      case Some(before) =>
        if HasSlug(before, SlugOf(owners[n])) then None
        else Some(before + [Organization(next + n, owners[n], SlugOf(owners[n]))])
  }

  function UserBy(users: seq<User>, email: string): (u: Option<User>)
    ensures u.Some? ==> u.value in users && u.value.email == email
    ensures u.None? ==> !HasEmail(users, email)
  {
    if users == [] then None
    else if users[|users| - 1].email == email then Some(users[|users| - 1])
    else UserBy(users[..|users| - 1], email)
  }

  function OrgBy(orgs: seq<Organization>, slug: Slug): (g: Option<Organization>)
    ensures g.Some? ==> g.value in orgs && g.value.slug == slug
    ensures g.None? ==> !HasSlug(orgs, slug)
  {
    if orgs == [] then None
    else if orgs[|orgs| - 1].slug == slug then Some(orgs[|orgs| - 1])
    else OrgBy(orgs[..|orgs| - 1], slug)
  }

  /** The user and organisation an owner joins to, unless they are already related. */
  function NewPairs(s: State): string -> Option<(nat, nat)> {
    o =>
      var u, g := UserBy(s.users, Lower(o)), OrgBy(s.orgs, SlugOf(o));
      if u.Some? && g.Some? && !HasMembership(s.memberships, u.value.id, g.value.id)
      then Some((u.value.id, g.value.id)) else None
  }

  function InsertPairs(ms: seq<Membership>, pairs: seq<(nat, nat)>, next: nat): Option<seq<Membership>> {
    if pairs == [] then Some(ms)
    else
      var n := |pairs| - 1;
      match InsertPairs(ms, pairs[..n], next)
      case None => None
      case Some(before) =>
        if HasMembership(before, pairs[n].0, pairs[n].1) then None
        else Some(before + [Membership(next + n, pairs[n].0, pairs[n].1)])
  }

  function Stamped(r: Row, orgs: seq<Organization>): Row {
    if r.org.None? && Owned(r) && OrgBy(orgs, SlugOf(r.owner.value)).Some?
    then r.(org := Some(OrgBy(orgs, SlugOf(r.owner.value)).value.id)) else r
  }

  function StampedRows(rows: seq<Row>, orgs: seq<Organization>): (r: seq<Row>)
    ensures |r| == |rows| && forall i :: 0 <= i < |rows| ==> r[i] == Stamped(rows[i], orgs)
  {
    seq(|rows|, i requires 0 <= i < |rows| => Stamped(rows[i], orgs))
  }

  function StampedTables(tables: Tables, names: seq<string>, orgs: seq<Organization>): Tables {
    map t | t in tables :: if t in names then StampedRows(tables[t], orgs) else tables[t]
  }

  /** The generator after one identifier for each of `made`. */
  function Later<T>(next: nat, made: seq<T>): nat { next + |made| }

  function AddUsers(s: State, owners: seq<string>): Option<State> {
    var emails := Collect(owners, NewEmails(s.users));
    var users := InsertUsers(s.users, emails, s.next);
    if users.None? then None else Some(s.(users := users.value, next := Later(s.next, emails)))
  }

  function AddOrgs(s: State, owners: seq<string>): Option<State> {
    var missing := Collect(owners, NewOrgs(s.orgs));
    var orgs := InsertOrgs(s.orgs, missing, s.next);
    if orgs.None? then None else Some(s.(orgs := orgs.value, next := Later(s.next, missing)))
  }

  function AddMemberships(s: State, owners: seq<string>): Option<State> {
    var pairs := Collect(owners, NewPairs(s));
    var memberships := InsertPairs(s.memberships, pairs, s.next);
    if memberships.None? then None else Some(s.(memberships := memberships.value, next := Later(s.next, pairs)))
  }

  /** The three inserts: users, organisations, memberships; each reads the union of owners afresh, in an
      order of its own. */
  function Inserted(s: State, byUsers: seq<string>, byOrgs: seq<string>, byPairs: seq<string>): Option<State> {
    match AddUsers(s, byUsers)
    case None => None
    case Some(a) =>
      match AddOrgs(a, byOrgs)
      case None => None
      case Some(b) => AddMemberships(b, byPairs)
  }

  /** The whole migration: the inserts and then the stamps. */
  function Backfilled(s: State, byUsers: seq<string>, byOrgs: seq<string>, byPairs: seq<string>): Option<State> {
    match Inserted(s, byUsers, byOrgs, byPairs)
    case None => None
    case Some(c) => Some(c.(tables := StampedTables(c.tables, OWNER_SOURCES, c.orgs)))
  }

  // ---- the program ------------------------------------------------------------------------------------

  method InsertUserRows(users: seq<User>, emails: seq<string>, next: nat) returns (r: Option<seq<User>>)
    ensures r == InsertUsers(users, emails, next)
  {
    var grown := users;
    for i := 0 to |emails|
      invariant InsertUsers(users, emails[..i], next) == Some(grown)
    {
      assert emails[..i + 1][..i] == emails[..i];
      if HasEmail(grown, emails[i]) {
        UsersAbort(users, emails, next, i + 1);
        return None;
      }
      grown := grown + [User(next + i, emails[i])];
    }
    assert emails[..|emails|] == emails;
    return Some(grown);
  }

  method InsertOrgRows(orgs: seq<Organization>, owners: seq<string>, next: nat) returns (r: Option<seq<Organization>>)
    ensures r == InsertOrgs(orgs, owners, next)
  {
    var grown := orgs;
    for i := 0 to |owners|
      invariant InsertOrgs(orgs, owners[..i], next) == Some(grown)
    {
      assert owners[..i + 1][..i] == owners[..i];
      if HasSlug(grown, SlugOf(owners[i])) {
        OrgsAbort(orgs, owners, next, i + 1);
        return None;
      }
      grown := grown + [Organization(next + i, owners[i], SlugOf(owners[i]))];
    }
    assert owners[..|owners|] == owners;
    return Some(grown);
  }

  method InsertPairRows(ms: seq<Membership>, pairs: seq<(nat, nat)>, next: nat) returns (r: Option<seq<Membership>>)
    ensures r == InsertPairs(ms, pairs, next)
  {
    var grown := ms;
    for i := 0 to |pairs|
      invariant InsertPairs(ms, pairs[..i], next) == Some(grown)
    {
      assert pairs[..i + 1][..i] == pairs[..i];
      if HasMembership(grown, pairs[i].0, pairs[i].1) {
        PairsAbort(ms, pairs, next, i + 1);
        return None;
      }
      grown := grown + [Membership(next + i, pairs[i].0, pairs[i].1)];
    }
    assert pairs[..|pairs|] == pairs;
    return Some(grown);
  }

  class Database {
    var users: seq<User>
    var orgs: seq<Organization>
    var memberships: seq<Membership>
    var tables: Tables
    var next: nat

    ghost function Current(): State
      reads this
    {
      State(users, orgs, memberships, tables, next)
    }

    constructor (s: State)
      ensures Current() == s
    {
      users, orgs, memberships, tables, next := s.users, s.orgs, s.memberships, s.tables, s.next;
    }

    method InsertIntoUsers(owners: seq<string>) returns (ok: bool)
      modifies this
      ensures ok == AddUsers(old(Current()), owners).Some?
      ensures ok ==> Current() == AddUsers(old(Current()), owners).value
      ensures !ok ==> Current() == old(Current())
    {
      var emails := Collect(owners, NewEmails(users));
      var grown := InsertUserRows(users, emails, next);
      if grown.None? {
        return false;
      }
      users, next := grown.value, Later(next, emails);
      return true;
    }

    method InsertIntoOrganizations(owners: seq<string>) returns (ok: bool)
      modifies this
      ensures ok == AddOrgs(old(Current()), owners).Some?
      ensures ok ==> Current() == AddOrgs(old(Current()), owners).value
      ensures !ok ==> Current() == old(Current())
    {
      var missing := Collect(owners, NewOrgs(orgs));
      var grown := InsertOrgRows(orgs, missing, next);
      if grown.None? {
        return false;
      }
      orgs, next := grown.value, Later(next, missing);
      return true;
    }

    method InsertIntoMemberships(owners: seq<string>) returns (ok: bool)
      modifies this
      ensures ok == AddMemberships(old(Current()), owners).Some?
      ensures ok ==> Current() == AddMemberships(old(Current()), owners).value
      ensures !ok ==> Current() == old(Current())
    {
      var pairs := Collect(owners, NewPairs(State(users, orgs, memberships, tables, next)));
      var grown := InsertPairRows(memberships, pairs, next);
      if grown.None? {
        return false;
      }
      memberships, next := grown.value, Later(next, pairs);
      return true;
    }

    method Stamp(table: string)
      modifies this`tables
      ensures tables == if table in old(tables)
        then old(tables)[table := StampedRows(old(tables)[table], orgs)] else old(tables)
    {
      if table !in tables {
        return;
      }
      var rows: seq<Row> := [];
      for i := 0 to |tables[table]|
        invariant tables == old(tables) && rows == StampedRows(tables[table][..i], orgs)
      {
        rows := rows + [Stamped(tables[table][i], orgs)];
      }
      assert tables[table][..|tables[table]|] == tables[table];
      tables := tables[table := rows];
    }

    method StampEach(names: seq<string>)
      modifies this`tables
      ensures tables == StampedTables(old(tables), names, orgs)
    {
      for i := 0 to |names|
        invariant tables == StampedTables(old(tables), names[..i], orgs)
      {
        Stamp(names[i]);
        assert names[..i + 1] == names[..i] + [names[i]];
        StampMore(old(tables), names[..i], names[i], orgs);
      }
      assert names[..|names|] == names;
    }

    method Run(byUsers: seq<string>, byOrgs: seq<string>, byPairs: seq<string>) returns (ok: bool)
      modifies this
      ensures ok == Backfilled(old(Current()), byUsers, byOrgs, byPairs).Some?
      ensures ok ==> Current() == Backfilled(old(Current()), byUsers, byOrgs, byPairs).value
    {
      ok := InsertIntoUsers(byUsers);
      if !ok { return; }
      ok := InsertIntoOrganizations(byOrgs);
      if !ok { return; }
      ok := InsertIntoMemberships(byPairs);
      if !ok { return; }
      ghost var joined := tables;
      StampEach(TENANT_TABLES);
      Stamp("api_keys");
      StampMore(joined, TENANT_TABLES, "api_keys", orgs);
    }
  }

  lemma {:induction false} StampMore(tables: Tables, names: seq<string>, name: string, orgs: seq<Organization>)
    ensures StampedTables(tables, names + [name], orgs)
      == var before := StampedTables(tables, names, orgs);
         if name in before then before[name := StampedRows(before[name], orgs)] else before
  {
    if name in tables && name in names {
      StampTwice(tables[name], orgs);
    }
  }

  lemma StampTwice(rows: seq<Row>, orgs: seq<Organization>)
    ensures StampedRows(StampedRows(rows, orgs), orgs) == StampedRows(rows, orgs)
  {
  }

  lemma {:induction false} UsersAbort(users: seq<User>, emails: seq<string>, next: nat, k: nat)
    requires k <= |emails| && InsertUsers(users, emails[..k], next).None?
    ensures InsertUsers(users, emails, next).None?
    decreases |emails| - k
  {
    if k == |emails| {
      assert emails[..k] == emails;
    } else {
      assert emails[..k + 1][..k] == emails[..k];
      UsersAbort(users, emails, next, k + 1);
    }
  }

  lemma {:induction false} OrgsAbort(orgs: seq<Organization>, owners: seq<string>, next: nat, k: nat)
    requires k <= |owners| && InsertOrgs(orgs, owners[..k], next).None?
    ensures InsertOrgs(orgs, owners, next).None?
    decreases |owners| - k
  {
    if k == |owners| {
      assert owners[..k] == owners;
    } else {
      assert owners[..k + 1][..k] == owners[..k];
      OrgsAbort(orgs, owners, next, k + 1);
    }
  }

  lemma {:induction false} PairsAbort(ms: seq<Membership>, pairs: seq<(nat, nat)>, next: nat, k: nat)
    requires k <= |pairs| && InsertPairs(ms, pairs[..k], next).None?
    ensures InsertPairs(ms, pairs, next).None?
    decreases |pairs| - k
  {
    if k == |pairs| {
      assert pairs[..k] == pairs;
    } else {
      assert pairs[..k + 1][..k] == pairs[..k];
      PairsAbort(ms, pairs, next, k + 1);
    }
  }

  // ---- each insert lands ---------------------------------------------------------------------------------

  ghost predicate Distinct<T(!new)>(s: seq<T>) {
    forall i, j :: 0 <= i < j < |s| ==> s[i] != s[j]
  }

  /** A selection that tells its sources apart has no repeats. */
  lemma {:induction false} CollectDistinct<T(!new), U(!new)>(s: seq<T>, f: T -> Option<U>)
    requires Distinct(s)
    requires forall x, y :: x in s && y in s && f(x).Some? && f(x) == f(y) ==> x == y
    ensures Distinct(Collect(s, f))
  {
    if s != [] {
      var n := |s| - 1;
      CollectDistinct(s[..n], f);
      if f(s[n]).Some? {
        var front := Collect(s[..n], f);
        forall i | 0 <= i < |front| ensures front[i] != f(s[n]).value {
          var x := CollectedFrom(s[..n], f, front[i]);
          assert s[n] in s && x in s && x != s[n];
        }
      }
    }
  }

  /** Inserting addresses lands exactly when they are distinct and new; the table then holds them too. */
  lemma {:induction false} UsersLandIff(users: seq<User>, emails: seq<string>, next: nat)
    requires UniqueEmails(users)
    ensures InsertUsers(users, emails, next).Some?
        <==> Distinct(emails) && forall e :: e in emails ==> !HasEmail(users, e)
    ensures InsertUsers(users, emails, next).Some? ==>
      var after := InsertUsers(users, emails, next).value;
      && UniqueEmails(after) && users <= after && |after| == |users| + |emails|
      && (forall j :: |users| <= j < |after| ==> after[j] == User(next + (j - |users|), emails[j - |users|]))
  {
    if emails != [] {
      var n := |emails| - 1;
      UsersLandIff(users, emails[..n], next);
      if InsertUsers(users, emails[..n], next).Some? {
        var before := InsertUsers(users, emails[..n], next).value;
        HasOldOrNew(users, before, emails, n, next);
      }
    }
  }

  lemma HasOldOrNew(users: seq<User>, before: seq<User>, emails: seq<string>, n: nat, next: nat)
    requires n < |emails| && users <= before && |before| == |users| + n
    requires forall j :: |users| <= j < |before| ==> before[j] == User(next + (j - |users|), emails[j - |users|])
    ensures HasEmail(before, emails[n]) <==> HasEmail(users, emails[n]) || emails[n] in emails[..n]
  {
    if HasEmail(users, emails[n]) {
      var i :| 0 <= i < |users| && users[i].email == emails[n];
      assert before[i] in before;
    }
    if emails[n] in emails[..n] {
      var i :| 0 <= i < n && emails[i] == emails[n];
      assert before[|users| + i] in before;
    }
    if HasEmail(before, emails[n]) {
      var i :| 0 <= i < |before| && before[i].email == emails[n];
      if i < |users| { assert users[i] == before[i]; } else { assert emails[..n][i - |users|] == emails[n]; }
    }
  }

  ghost predicate DistinctSlugs(owners: seq<string>) {
    forall i, j :: 0 <= i < j < |owners| ==> SlugOf(owners[i]) != SlugOf(owners[j])
  }

  lemma {:induction false} OrgsLandIff(orgs: seq<Organization>, owners: seq<string>, next: nat)
    requires UniqueSlugs(orgs)
    ensures InsertOrgs(orgs, owners, next).Some?
      <==> DistinctSlugs(owners) && forall o :: o in owners ==> !HasSlug(orgs, SlugOf(o))
    ensures InsertOrgs(orgs, owners, next).Some? ==>
      var after := InsertOrgs(orgs, owners, next).value;
      && UniqueSlugs(after) && orgs <= after && |after| == |orgs| + |owners|
      && (forall j :: |orgs| <= j < |after| ==>
          after[j] == Organization(next + (j - |orgs|), owners[j - |orgs|], SlugOf(owners[j - |orgs|])))
  {
    if owners != [] {
      var n := |owners| - 1;
      OrgsLandIff(orgs, owners[..n], next);
      if InsertOrgs(orgs, owners[..n], next).Some? {
        SlugOldOrNew(orgs, InsertOrgs(orgs, owners[..n], next).value, owners, n, next);
      }
    }
  }

  lemma SlugOldOrNew(orgs: seq<Organization>, before: seq<Organization>, owners: seq<string>, n: nat, next: nat)
    requires n < |owners| && orgs <= before && |before| == |orgs| + n
    requires forall j :: |orgs| <= j < |before| ==>
        before[j] == Organization(next + (j - |orgs|), owners[j - |orgs|], SlugOf(owners[j - |orgs|]))
    ensures HasSlug(before, SlugOf(owners[n]))
      <==> HasSlug(orgs, SlugOf(owners[n])) || exists i :: 0 <= i < n && SlugOf(owners[i]) == SlugOf(owners[n])
  {
    if HasSlug(orgs, SlugOf(owners[n])) {
      var i :| 0 <= i < |orgs| && orgs[i].slug == SlugOf(owners[n]);
      assert before[i] in before;
    }
    if exists i :: 0 <= i < n && SlugOf(owners[i]) == SlugOf(owners[n]) {
      var i :| 0 <= i < n && SlugOf(owners[i]) == SlugOf(owners[n]);
      assert before[|orgs| + i] in before;
    }
    if HasSlug(before, SlugOf(owners[n])) {
      var i :| 0 <= i < |before| && before[i].slug == SlugOf(owners[n]);
      if i < |orgs| {
        assert orgs[i] == before[i];
      } else {
        assert before[|orgs| + (i - |orgs|)].slug == SlugOf(owners[i - |orgs|]);
      }
    }
  }

  /** Why the union lowercases: two owners that differ only in case, inserted as they are, abort the
      statement on the unique slug. */
  lemma {:induction false} CaseVariantsAbort(orgs: seq<Organization>, owners: seq<string>, next: nat, i: nat, j: nat)
    requires UniqueSlugs(orgs) && i < j < |owners| && Lower(owners[i]) == Lower(owners[j])
    ensures InsertOrgs(orgs, owners, next).None?
  {
    OrgsLandIff(orgs, owners, next);
    assert SlugOf(owners[i]) == SlugOf(owners[j]);
  }

  lemma {:induction false} PairsLand(ms: seq<Membership>, pairs: seq<(nat, nat)>, next: nat)
    requires UniquePairs(ms) && Distinct(pairs) && forall p :: p in pairs ==> !HasMembership(ms, p.0, p.1)
    ensures InsertPairs(ms, pairs, next).Some?
    ensures var after := InsertPairs(ms, pairs, next).value;
      && UniquePairs(after) && ms <= after && |after| == |ms| + |pairs|
      && (forall j :: |ms| <= j < |after| ==>
          after[j] == Membership(next + (j - |ms|), pairs[j - |ms|].0, pairs[j - |ms|].1))
  {
    if pairs != [] {
      var n := |pairs| - 1;
      PairsLand(ms, pairs[..n], next);
      var before := InsertPairs(ms, pairs[..n], next).value;
      assert pairs[n] in pairs && !HasMembership(ms, pairs[n].0, pairs[n].1);
      forall m | m in before ensures m.user != pairs[n].0 || m.org != pairs[n].1 {
        var i :| 0 <= i < |before| && before[i] == m;
        if i < |ms| {
          assert ms[i] == m;
        } else {
          assert m == Membership(next + (i - |ms|), pairs[i - |ms|].0, pairs[i - |ms|].1);
        }
      }
    }
  }

  lemma {:induction false} CollectNothing<T, U>(s: seq<T>, f: T -> Option<U>)
    requires forall x :: x in s ==> f(x).None?
    ensures Collect(s, f) == []
  {
    if s != [] { CollectNothing(s[..|s| - 1], f); }
  }

  // ---- the statements, one by one ------------------------------------------------------------------------

  lemma OwnersAreLowered(tables: Tables, o: string)
    requires o in Owners(tables)
    ensures Lower(o) == o
  {
    var t, r :| t in OWNER_SOURCES && r in RowsOf(tables, t) && Owned(r) && Lower(r.owner.value) == o;
    LowerFixes(Lower(r.owner.value));
  }

  lemma {:induction false} MissingUsers(s: State, owners: seq<string>)
    requires Lists(owners, Owners(s.tables))
    ensures var emails := Collect(owners, NewEmails(s.users));
      && Distinct(emails)
      && (forall e :: e in emails <==> e in Owners(s.tables) && '@' in e && !HasEmail(s.users, e))
  {
    var emails := Collect(owners, NewEmails(s.users));
    forall o | o in owners ensures Lower(o) == o { OwnersAreLowered(s.tables, o); }
    CollectDistinct(owners, NewEmails(s.users));
    forall e | e in emails ensures !HasEmail(s.users, e) && e in owners && '@' in e {
      var o := CollectedFrom(owners, NewEmails(s.users), e);
    }
    forall e | e in owners && '@' in e && !HasEmail(s.users, e) ensures e in emails {
      CollectKeeps(owners, NewEmails(s.users), e);
    }
  }

  /** The rows of `now` past those of `was` have the next identifiers. */
  ghost predicate UsersNumbered(was: seq<User>, now: seq<User>, next: nat) {
    was <= now && forall j :: |was| <= j < |now| ==> now[j].id == next + (j - |was|)
  }

  ghost predicate OrgsNumbered(was: seq<Organization>, now: seq<Organization>, next: nat) {
    was <= now && forall j :: |was| <= j < |now| ==> now[j].id == next + (j - |was|)
  }

  lemma {:induction false} NewUserRows(users: seq<User>, emails: seq<string>, next: nat)
    requires UniqueEmails(users) && Distinct(emails) && forall e :: e in emails ==> !HasEmail(users, e)
    ensures var r := InsertUsers(users, emails, next);
      && r.Some? && UniqueEmails(r.value) && UsersNumbered(users, r.value, next) && |r.value| == |users| + |emails|
      && (forall e :: HasEmail(r.value, e) <==> HasEmail(users, e) || e in emails)
  {
    UsersLandIff(users, emails, next);
    var after := InsertUsers(users, emails, next).value;
    forall e ensures HasEmail(after, e) <==> HasEmail(users, e) || e in emails {
      EmailsAfter(users, after, emails, next, e);
    }
  }

  /** The users after the first insert: those there were, and one for each owner that is an address. */
  lemma UsersStep(s: State, owners: seq<string>)
    requires Ok(s) && Lists(owners, Owners(s.tables))
    ensures AddUsers(s, owners).Some?
    ensures var t := AddUsers(s, owners).value;
      && Ok(t) && s.users <= t.users
      && t.orgs == s.orgs && t.memberships == s.memberships && t.tables == s.tables
      && (forall e :: HasEmail(t.users, e) <==> HasEmail(s.users, e) || (e in Owners(s.tables) && '@' in e))
  {
    MissingUsers(s, owners);
    NewUserRows(s.users, Collect(owners, NewEmails(s.users)), s.next);
    UsersKeepIds(s, AddUsers(s, owners).value, Collect(owners, NewEmails(s.users)));
  }

  lemma EmailsAfter(users: seq<User>, after: seq<User>, emails: seq<string>, next: nat, e: string)
    requires users <= after && |after| == |users| + |emails|
    requires forall j :: |users| <= j < |after| ==> after[j] == User(next + (j - |users|), emails[j - |users|])
    ensures HasEmail(after, e) <==> HasEmail(users, e) || e in emails
  {
    if HasEmail(users, e) {
      var i :| 0 <= i < |users| && users[i].email == e;
      assert after[i] in after;
    }
    if e in emails {
      var i :| 0 <= i < |emails| && emails[i] == e;
      assert after[|users| + i] in after;
    }
    if HasEmail(after, e) {
      var i :| 0 <= i < |after| && after[i].email == e;
      if i < |users| { assert users[i] == after[i]; } else { assert emails[i - |users|] == e; }
    }
  }

  lemma UsersKeepIds(s: State, t: State, emails: seq<string>)
    requires UniqueIds(s) && UsersNumbered(s.users, t.users, s.next) && |t.users| == |s.users| + |emails|
    requires t.orgs == s.orgs
    requires t.next == s.next + |emails|
    ensures UniqueIds(t)
  {
    forall i | 0 <= i < |t.users| ensures t.users[i].id < t.next && (i < |s.users| <==> t.users[i].id < s.next) {
      if i < |s.users| { assert s.users[i] in s.users; }
    }
  }

  lemma {:induction false} MissingOrgs(s: State, owners: seq<string>)
    requires Lists(owners, Owners(s.tables))
    ensures var missing := Collect(owners, NewOrgs(s.orgs));
      && DistinctSlugs(missing)
      && (forall o :: o in missing <==> o in Owners(s.tables) && !HasSlug(s.orgs, BackfillSlug(o)))
      && (forall o :: o in missing ==> SlugOf(o) == BackfillSlug(o))
  {
    var missing := Collect(owners, NewOrgs(s.orgs));
    forall o | o in owners ensures SlugOf(o) == BackfillSlug(o) { OwnersAreLowered(s.tables, o); }
    CollectDistinct(owners, NewOrgs(s.orgs));
    forall o | o in missing ensures !HasSlug(s.orgs, SlugOf(o)) && o in owners {
      var x := CollectedFrom(owners, NewOrgs(s.orgs), o);
    }
    forall o | o in owners && !HasSlug(s.orgs, BackfillSlug(o)) ensures o in missing {
      CollectKeeps(owners, NewOrgs(s.orgs), o);
    }
    assert forall i :: 0 <= i < |missing| ==> missing[i] in missing;
  }

  lemma {:induction false} NewOrgRows(orgs: seq<Organization>, missing: seq<string>, next: nat)
    requires UniqueSlugs(orgs) && DistinctSlugs(missing)
    requires forall o :: o in missing ==> !HasSlug(orgs, SlugOf(o)) && SlugOf(o) == BackfillSlug(o)
    ensures var r := InsertOrgs(orgs, missing, next);
      && r.Some? && UniqueSlugs(r.value) && OrgsNumbered(orgs, r.value, next) && |r.value| == |orgs| + |missing|
      && (forall g :: HasSlug(r.value, g) <==> HasSlug(orgs, g) || (g.BackfillSlug? && g.hashed in missing))
  {
    OrgsLandIff(orgs, missing, next);
    var after := InsertOrgs(orgs, missing, next).value;
    forall g ensures HasSlug(after, g) <==> HasSlug(orgs, g) || (g.BackfillSlug? && g.hashed in missing) {
      SlugsAfter(orgs, after, missing, next, g);
    }
  }

  /** The organisations after the second insert: those there were, and one for each owner. */
  lemma OrgsStep(s: State, owners: seq<string>)
    requires Ok(s) && Lists(owners, Owners(s.tables))
    ensures AddOrgs(s, owners).Some?
    ensures var t := AddOrgs(s, owners).value;
      && Ok(t) && s.orgs <= t.orgs
      && t.users == s.users && t.memberships == s.memberships && t.tables == s.tables
      && (forall g :: HasSlug(t.orgs, g) <==> HasSlug(s.orgs, g) || (g.BackfillSlug? && g.hashed in Owners(s.tables)))
  {
    MissingOrgs(s, owners);
    NewOrgRows(s.orgs, Collect(owners, NewOrgs(s.orgs)), s.next);
    OrgsKeepIds(s, AddOrgs(s, owners).value, Collect(owners, NewOrgs(s.orgs)));
  }

  lemma SlugsAfter(orgs: seq<Organization>, after: seq<Organization>, missing: seq<string>, next: nat, g: Slug)
    requires orgs <= after && |after| == |orgs| + |missing|
    requires forall j :: |orgs| <= j < |after| ==>
        after[j] == Organization(next + (j - |orgs|), missing[j - |orgs|], SlugOf(missing[j - |orgs|]))
    requires forall o :: o in missing ==> SlugOf(o) == BackfillSlug(o)
    ensures HasSlug(after, g) <==> HasSlug(orgs, g) || (g.BackfillSlug? && g.hashed in missing)
  {
    if HasSlug(orgs, g) {
      var i :| 0 <= i < |orgs| && orgs[i].slug == g;
      assert after[i] in after;
    }
    if g.BackfillSlug? && g.hashed in missing {
      var i :| 0 <= i < |missing| && missing[i] == g.hashed;
      assert after[|orgs| + i] in after && after[|orgs| + i].slug == g;
    }
    if HasSlug(after, g) {
      var i :| 0 <= i < |after| && after[i].slug == g;
      if i < |orgs| {
        assert orgs[i] == after[i];
      } else {
        assert missing[i - |orgs|] in missing && after[|orgs| + (i - |orgs|)].slug == BackfillSlug(missing[i - |orgs|]);
      }
    }
  }

  lemma OrgsKeepIds(s: State, t: State, missing: seq<string>)
    requires UniqueIds(s) && OrgsNumbered(s.orgs, t.orgs, s.next) && |t.orgs| == |s.orgs| + |missing|
    requires t.users == s.users
    requires t.next == s.next + |missing|
    ensures UniqueIds(t)
  {
    forall i | 0 <= i < |t.orgs| ensures t.orgs[i].id < t.next && (i < |s.orgs| <==> t.orgs[i].id < s.next) {
      if i < |s.orgs| { assert s.orgs[i] in s.orgs; }
    }
  }

  lemma SameUser(s: State, u: User, v: User)
    requires UniqueIds(s) && u in s.users && v in s.users && u.id == v.id
    ensures u == v
  {
    var i :| 0 <= i < |s.users| && s.users[i] == u;
    var j :| 0 <= j < |s.users| && s.users[j] == v;
    assert i == j;
  }

  /** An owner whose address has a user is a member of its own organisation. */
  ghost predicate Joined(s: State, o: string) {
    var u, g := UserBy(s.users, Lower(o)), OrgBy(s.orgs, SlugOf(o));
    u.Some? && g.Some? ==> HasMembership(s.memberships, u.value.id, g.value.id)
  }

  lemma {:induction false} NewPairsAreNew(s: State, owners: seq<string>)
    ensures forall p :: p in Collect(owners, NewPairs(s)) ==> !HasMembership(s.memberships, p.0, p.1)
  {
    forall p | p in Collect(owners, NewPairs(s)) ensures !HasMembership(s.memberships, p.0, p.1) {
      var o := CollectedFrom(owners, NewPairs(s), p);
    }
  }

  /** The memberships after the third insert: every owner's user belongs to its organisation. */
  lemma PairsStep(s: State, owners: seq<string>)
    requires Ok(s) && Lists(owners, Owners(s.tables))
    ensures AddMemberships(s, owners).Some?
    ensures var t := AddMemberships(s, owners).value;
      && Ok(t) && s.memberships <= t.memberships
      && t.users == s.users && t.orgs == s.orgs && t.tables == s.tables
      && forall o :: o in Owners(s.tables) ==> Joined(t, o)
  {
    PairsAreDistinct(s, owners);
    NewPairsAreNew(s, owners);
    var pairs := Collect(owners, NewPairs(s));
    NewPairRows(s.memberships, pairs, s.next);
    var t := AddMemberships(s, owners).value;
    forall o | o in Owners(s.tables) ensures Joined(t, o) {
      JoinedAfter(s, t, owners, pairs, o);
    }
  }

  lemma {:induction false} NewPairRows(ms: seq<Membership>, pairs: seq<(nat, nat)>, next: nat)
    requires UniquePairs(ms) && Distinct(pairs) && forall p :: p in pairs ==> !HasMembership(ms, p.0, p.1)
    ensures var r := InsertPairs(ms, pairs, next);
      && r.Some? && UniquePairs(r.value) && ms <= r.value
      && (forall p :: p in pairs ==> HasMembership(r.value, p.0, p.1))
  {
    PairsLand(ms, pairs, next);
    var after := InsertPairs(ms, pairs, next).value;
    forall p | p in pairs ensures HasMembership(after, p.0, p.1) {
      var i :| 0 <= i < |pairs| && pairs[i] == p;
      assert after[|ms| + i] in after;
    }
  }

  lemma {:induction false} JoinedAfter(s: State, t: State, owners: seq<string>, pairs: seq<(nat, nat)>, o: string)
    requires o in owners && pairs == Collect(owners, NewPairs(s)) && t.users == s.users && t.orgs == s.orgs
    requires s.memberships <= t.memberships && forall p :: p in pairs ==> HasMembership(t.memberships, p.0, p.1)
    ensures Joined(t, o)
  {
    var u, g := UserBy(s.users, Lower(o)), OrgBy(s.orgs, SlugOf(o));
    if u.Some? && g.Some? {
      if HasMembership(s.memberships, u.value.id, g.value.id) {
        var i :| 0 <= i < |s.memberships| && s.memberships[i].user == u.value.id && s.memberships[i].org == g.value.id;
        assert t.memberships[i] in t.memberships;
      } else {
        CollectKeeps(owners, NewPairs(s), o);
      }
    }
  }

  lemma {:induction false} PairsAreDistinct(s: State, owners: seq<string>)
    requires Ok(s) && Lists(owners, Owners(s.tables))
    ensures Distinct(Collect(owners, NewPairs(s)))
  {
    var f := NewPairs(s);
    forall x, y | x in owners && y in owners && f(x).Some? && f(x) == f(y) ensures x == y {
      OwnersAreLowered(s.tables, x);
      OwnersAreLowered(s.tables, y);
      SameUser(s, UserBy(s.users, x).value, UserBy(s.users, y).value);
    }
    CollectDistinct(owners, f);
  }

  // ---- the migration --------------------------------------------------------------------------------------

  /** What one run leaves nothing to do about: every owner has its organisation, its user if it is an
      address, and the membership between them; every owned row has an organisation. */
  ghost predicate Complete(s: State) {
    && (forall o :: o in Owners(s.tables) ==>
        HasSlug(s.orgs, BackfillSlug(o)) && ('@' in o ==> HasEmail(s.users, o)) && Joined(s, o))
    && (forall t, r :: t in OWNER_SOURCES && r in RowsOf(s.tables, t) && Owned(r) ==> r.org.Some?)
  }

  lemma StampsKeepOwners(s: State)
    ensures Owners(StampedTables(s.tables, OWNER_SOURCES, s.orgs)) == Owners(s.tables)
  {
    var after := StampedTables(s.tables, OWNER_SOURCES, s.orgs);
    forall t, r | t in OWNER_SOURCES && r in RowsOf(after, t) && Owned(r)
      ensures Lower(r.owner.value) in Owners(s.tables) {
      var i :| 0 <= i < |after[t]| && after[t][i] == r;
      assert s.tables[t][i] in RowsOf(s.tables, t);
    }
    forall t, r | t in OWNER_SOURCES && r in RowsOf(s.tables, t) && Owned(r)
      ensures Lower(r.owner.value) in Owners(after) {
      var i :| 0 <= i < |s.tables[t]| && s.tables[t][i] == r;
      assert after[t][i] in RowsOf(after, t);
    }
  }

  lemma InsertsLand(s: State, byUsers: seq<string>, byOrgs: seq<string>, byPairs: seq<string>)
    requires Ok(s) && Lists(byUsers, Owners(s.tables)) && Lists(byOrgs, Owners(s.tables))
    requires Lists(byPairs, Owners(s.tables))
    ensures Inserted(s, byUsers, byOrgs, byPairs).Some?
    ensures var t := Inserted(s, byUsers, byOrgs, byPairs).value;
      && Ok(t) && t.tables == s.tables
      && s.users <= t.users && s.orgs <= t.orgs && s.memberships <= t.memberships
      && (forall e :: HasEmail(t.users, e) <==> HasEmail(s.users, e) || (e in Owners(s.tables) && '@' in e))
      && (forall g :: HasSlug(t.orgs, g) <==> HasSlug(s.orgs, g) || (g.BackfillSlug? && g.hashed in Owners(s.tables)))
      && (forall o :: o in Owners(s.tables) ==> Joined(t, o))
  {
    UsersStep(s, byUsers);
    var a := AddUsers(s, byUsers).value;
    OrgsStep(a, byOrgs);
    PairsStep(AddOrgs(a, byOrgs).value, byPairs);
  }

  lemma StampsKeepOk(c: State)
    requires Ok(c)
    ensures Ok(c.(tables := StampedTables(c.tables, OWNER_SOURCES, c.orgs)))
  {
  }

  /** THE MIGRATION LANDS. Whatever order the database produces the owners in, no insert breaks a
      unique index, the indexes still hold afterwards, and nothing is left to do. */
  lemma BackfillLands(s: State, byUsers: seq<string>, byOrgs: seq<string>, byPairs: seq<string>)
    requires Ok(s) && Lists(byUsers, Owners(s.tables)) && Lists(byOrgs, Owners(s.tables))
    requires Lists(byPairs, Owners(s.tables))
    ensures Backfilled(s, byUsers, byOrgs, byPairs).Some?
    ensures var t := Backfilled(s, byUsers, byOrgs, byPairs).value;
      && Ok(t) && Complete(t) && Owners(t.tables) == Owners(s.tables)
      && s.users <= t.users && s.orgs <= t.orgs && s.memberships <= t.memberships
      && t.tables == StampedTables(s.tables, OWNER_SOURCES, t.orgs)
      && (forall e :: HasEmail(t.users, e) <==> HasEmail(s.users, e) || (e in Owners(s.tables) && '@' in e))
      && (forall g :: HasSlug(t.orgs, g) <==> HasSlug(s.orgs, g) || (g.BackfillSlug? && g.hashed in Owners(s.tables)))
  {
    InsertsLand(s, byUsers, byOrgs, byPairs);
    var c := Inserted(s, byUsers, byOrgs, byPairs).value;
    StampsKeepOwners(c);
    forall o | o in Owners(c.tables)
      ensures HasSlug(c.orgs, BackfillSlug(o)) && ('@' in o ==> HasEmail(c.users, o)) && Joined(c, o) {
      assert BackfillSlug(o).hashed == o;
    }
    StampsComplete(c);
    StampsKeepOk(c);
  }

  lemma StampsComplete(c: State)
    requires forall o :: o in Owners(c.tables) ==>
        HasSlug(c.orgs, BackfillSlug(o)) && ('@' in o ==> HasEmail(c.users, o)) && Joined(c, o)
    ensures Complete(c.(tables := StampedTables(c.tables, OWNER_SOURCES, c.orgs)))
  {
    var t := c.(tables := StampedTables(c.tables, OWNER_SOURCES, c.orgs));
    StampsKeepOwners(c);
    forall o | o in Owners(t.tables) ensures Joined(t, o) {
      assert Joined(c, o);
    }
    forall n, r | n in OWNER_SOURCES && r in RowsOf(t.tables, n) && Owned(r) ensures r.org.Some? {
      var i :| 0 <= i < |t.tables[n]| && t.tables[n][i] == r;
      var was := c.tables[n][i];
      assert was in RowsOf(c.tables, n) && Owned(was) && Lower(was.owner.value) in Owners(c.tables);
    }
  }

  lemma {:induction false} NothingToInsert(s: State, owners: seq<string>)
    requires Complete(s) && Lists(owners, Owners(s.tables))
    ensures Collect(owners, NewEmails(s.users)) == [] && Collect(owners, NewOrgs(s.orgs)) == []
    ensures Collect(owners, NewPairs(s)) == []
  {
    forall o | o in owners ensures Lower(o) == o && Joined(s, o) { OwnersAreLowered(s.tables, o); }
    CollectNothing(owners, NewEmails(s.users));
    CollectNothing(owners, NewOrgs(s.orgs));
    CollectNothing(owners, NewPairs(s));
  }

  /** IDEMPOTENT. A run over a complete database changes nothing at all. */
  lemma BackfillIsIdempotent(s: State, byUsers: seq<string>, byOrgs: seq<string>, byPairs: seq<string>)
    requires Complete(s)
    requires Lists(byUsers, Owners(s.tables)) && Lists(byOrgs, Owners(s.tables)) && Lists(byPairs, Owners(s.tables))
    ensures Backfilled(s, byUsers, byOrgs, byPairs) == Some(s)
  {
    NothingToInsert(s, byUsers);
    NothingToInsert(s, byOrgs);
    NothingToInsert(s, byPairs);
    assert AddUsers(s, byUsers) == Some(s) && AddOrgs(s, byOrgs) == Some(s) && AddMemberships(s, byPairs) == Some(s);
    NothingToStamp(s);
  }

  lemma NothingToStamp(s: State)
    requires forall t, r :: t in OWNER_SOURCES && r in RowsOf(s.tables, t) && Owned(r) ==> r.org.Some?
    ensures StampedTables(s.tables, OWNER_SOURCES, s.orgs) == s.tables
  {
    forall t | t in s.tables && t in OWNER_SOURCES ensures StampedRows(s.tables[t], s.orgs) == s.tables[t] {
      forall i | 0 <= i < |s.tables[t]| ensures Stamped(s.tables[t][i], s.orgs) == s.tables[t][i] {
        assert s.tables[t][i] in RowsOf(s.tables, t);
      }
    }
  }

  /** What becomes of each row: one that has an organisation, or no owner, is as it was; any other gets
      the organisation of its lowercased owner. */
  lemma EachRow(s: State, t: State, table: string, i: nat)
    requires Ok(t) && table in OWNER_SOURCES && table in s.tables && i < |s.tables[table]|
    requires t.tables == StampedTables(s.tables, OWNER_SOURCES, t.orgs)
    requires forall o :: o in Owners(s.tables) ==> HasSlug(t.orgs, BackfillSlug(o))
    ensures table in t.tables && |t.tables[table]| == |s.tables[table]|
    ensures var was, now := s.tables[table][i], t.tables[table][i];
      && now.owner == was.owner
      && (was.org.Some? || !Owned(was) ==> now == was)
      && (was.org.None? && Owned(was) ==>
            exists g :: g in t.orgs && g.slug == BackfillSlug(Lower(was.owner.value)) && now.org == Some(g.id))
  {
    var was := s.tables[table][i];
    if was.org.None? && Owned(was) {
      assert was in RowsOf(s.tables, table);
      assert Lower(was.owner.value) in Owners(s.tables);
      LowerFixes(Lower(was.owner.value));
    }
  }

  lemma OrganizationsApart(orgs: seq<Organization>, a: Row, b: Row, g: Organization, h: Organization)
    requires UniqueSlugs(orgs) && (forall i, j :: 0 <= i < j < |orgs| ==> orgs[i].id != orgs[j].id)
    requires Owned(a) && Owned(b) && g in orgs && h in orgs
    requires g.slug == BackfillSlug(Lower(a.owner.value)) && h.slug == BackfillSlug(Lower(b.owner.value))
    ensures g.id == h.id <==> Lower(a.owner.value) == Lower(b.owner.value)
  {
    var i :| 0 <= i < |orgs| && orgs[i] == g;
    var j :| 0 <= j < |orgs| && orgs[j] == h;
  }

  /** The row has an owner and no organisation yet. */
  predicate Unstamped(s: State, table: string, i: nat) {
    && table in OWNER_SOURCES && table in s.tables && i < |s.tables[table]|
    && Owned(s.tables[table][i]) && s.tables[table][i].org.None?
  }

  /** Two rows of any tables that the run stamps get one organisation exactly when their owners differ at
      most in case. */
  lemma SameOrganizationIff(s: State, byUsers: seq<string>, byOrgs: seq<string>, byPairs: seq<string>,
                            table: string, i: nat, other: string, j: nat)
    requires Ok(s) && Lists(byUsers, Owners(s.tables)) && Lists(byOrgs, Owners(s.tables))
    requires Lists(byPairs, Owners(s.tables))
    requires Unstamped(s, table, i) && Unstamped(s, other, j)
    ensures Backfilled(s, byUsers, byOrgs, byPairs).Some?
    ensures var t := Backfilled(s, byUsers, byOrgs, byPairs).value;
      && table in t.tables && other in t.tables && i < |t.tables[table]| && j < |t.tables[other]|
      && t.tables[table][i].org.Some? && t.tables[other][j].org.Some?
      && (t.tables[table][i].org == t.tables[other][j].org
          <==> Lower(s.tables[table][i].owner.value) == Lower(s.tables[other][j].owner.value))
  {
    BackfillLands(s, byUsers, byOrgs, byPairs);
    var t := Backfilled(s, byUsers, byOrgs, byPairs).value;
    EachRow(s, t, table, i);
    EachRow(s, t, other, j);
    var a, b := s.tables[table][i], s.tables[other][j];
    var g :| g in t.orgs && g.slug == BackfillSlug(Lower(a.owner.value)) && t.tables[table][i].org == Some(g.id);
    var h :| h in t.orgs && h.slug == BackfillSlug(Lower(b.owner.value)) && t.tables[other][j].org == Some(h.id);
    OrganizationsApart(t.orgs, a, b, g, h);
  }

  /** Why the union is wider than the stamped tables: an owner known only by an API key gets an
      organisation and its key a stamp. */
  lemma KeyOnlyOwnerIsStamped(s: State, byUsers: seq<string>, byOrgs: seq<string>, byPairs: seq<string>, i: nat)
    requires Ok(s) && Lists(byUsers, Owners(s.tables)) && Lists(byOrgs, Owners(s.tables))
    requires Lists(byPairs, Owners(s.tables))
    requires "api_keys" in s.tables && i < |s.tables["api_keys"]| && Owned(s.tables["api_keys"][i])
    ensures Backfilled(s, byUsers, byOrgs, byPairs).Some?
    ensures var t := Backfilled(s, byUsers, byOrgs, byPairs).value;
      "api_keys" in t.tables && i < |t.tables["api_keys"]| && t.tables["api_keys"][i].org.Some?
  {
    BackfillLands(s, byUsers, byOrgs, byPairs);
    EachRow(s, Backfilled(s, byUsers, byOrgs, byPairs).value, "api_keys", i);
  }

  /** The tables that carry an owner. */
  predicate ScopesOnOwner(table: string) {
    || table == "geometry_sources" || table == "simulation_jobs" || table == "chat_sessions"
    || table == "geometry_interpretations" || table == "capture_operations" || table == "artifact_reconciliations"
    || table == "source_object_cleanups" || table == "api_keys"
  }

  /** EVERY TENANT TABLE, BY NAME. Whichever of the eight holds it, a row with an owner and no organisation is
      stamped with the organisation of that owner, whom the run has made sure of. */
  lemma EveryTableIsStamped(s: State, byUsers: seq<string>, byOrgs: seq<string>, byPairs: seq<string>,
                            table: string, i: nat)
    requires Ok(s) && Lists(byUsers, Owners(s.tables)) && Lists(byOrgs, Owners(s.tables))
    requires Lists(byPairs, Owners(s.tables))
    requires ScopesOnOwner(table)
    requires table in s.tables && i < |s.tables[table]| && s.tables[table][i].org.None?
    requires s.tables[table][i].owner.Some? && s.tables[table][i].owner.value != ""
    ensures Backfilled(s, byUsers, byOrgs, byPairs).Some?
    ensures var t := Backfilled(s, byUsers, byOrgs, byPairs).value;
      && table in t.tables && i < |t.tables[table]|
      && exists g :: g in t.orgs && g.slug == BackfillSlug(Lower(s.tables[table][i].owner.value))
           && t.tables[table][i] == Row(s.tables[table][i].owner, Some(g.id))
  {
    TenantTable(table);
    BackfillLands(s, byUsers, byOrgs, byPairs);
    EachRow(s, Backfilled(s, byUsers, byOrgs, byPairs).value, table, i);
  }

  lemma TenantTable(table: string)
    ensures table in OWNER_SOURCES <==> ScopesOnOwner(table)
  {
    assert OWNER_SOURCES[..7] == TENANT_TABLES && OWNER_SOURCES[7] == "api_keys";
    assert TENANT_TABLES[0] == "geometry_sources" && TENANT_TABLES[1] == "simulation_jobs";
    assert TENANT_TABLES[2] == "chat_sessions" && TENANT_TABLES[3] == "geometry_interpretations";
    assert TENANT_TABLES[4] == "capture_operations" && TENANT_TABLES[5] == "artifact_reconciliations";
    assert TENANT_TABLES[6] == "source_object_cleanups";
  }

  /** A table of any other name is not touched. */
  lemma OtherTablesStay(s: State, byUsers: seq<string>, byOrgs: seq<string>, byPairs: seq<string>, table: string)
    requires Ok(s) && Lists(byUsers, Owners(s.tables)) && Lists(byOrgs, Owners(s.tables))
    requires Lists(byPairs, Owners(s.tables)) && table in s.tables
    requires !ScopesOnOwner(table)
    ensures Backfilled(s, byUsers, byOrgs, byPairs).Some?
    ensures var t := Backfilled(s, byUsers, byOrgs, byPairs).value;
      table in t.tables && t.tables[table] == s.tables[table]
  {
    TenantTable(table);
    BackfillLands(s, byUsers, byOrgs, byPairs);
  }

  /** A row without an owner, or with an empty one, keeps its NULL, and no organisation is made for nobody. */
  lemma NobodyIsProvisioned(s: State, byUsers: seq<string>, byOrgs: seq<string>, byPairs: seq<string>,
                            table: string, i: nat)
    requires Ok(s) && Lists(byUsers, Owners(s.tables)) && Lists(byOrgs, Owners(s.tables))
    requires Lists(byPairs, Owners(s.tables))
    requires table in s.tables && i < |s.tables[table]|
    requires s.tables[table][i].owner == None || s.tables[table][i].owner == Some("")
    ensures Backfilled(s, byUsers, byOrgs, byPairs).Some?
    ensures var t := Backfilled(s, byUsers, byOrgs, byPairs).value;
      && table in t.tables && i < |t.tables[table]| && t.tables[table][i] == s.tables[table][i]
      && (HasSlug(t.orgs, BackfillSlug("")) <==> HasSlug(s.orgs, BackfillSlug("")))
  {
    BackfillLands(s, byUsers, byOrgs, byPairs);
    assert "" !in Owners(s.tables);
    if table in OWNER_SOURCES { EachRow(s, Backfilled(s, byUsers, byOrgs, byPairs).value, table, i); }
  }

  /** The membership is that of an owner's user in the owner's organisation. */
  ghost predicate OwnerJoins(t: State, owners: set<string>, m: Membership) {
    exists o, u, g :: o in owners && u in t.users && g in t.orgs && u.email == o && g.slug == BackfillSlug(o)
      && m.user == u.id && m.org == g.id
  }

  lemma OrgsMadeFor(s: State, owners: seq<string>, j: nat)
    requires Ok(s) && Lists(owners, Owners(s.tables)) && AddOrgs(s, owners).Some?
    requires |s.orgs| <= j < |AddOrgs(s, owners).value.orgs|
    ensures var g := AddOrgs(s, owners).value.orgs[j]; g.name in Owners(s.tables) && g.slug == BackfillSlug(g.name)
  {
    var missing := Collect(owners, NewOrgs(s.orgs));
    MissingOrgs(s, owners);
    OrgsLandIff(s.orgs, missing, s.next);
    assert missing[j - |s.orgs|] in missing;
  }

  lemma PairsMadeFor(s: State, owners: seq<string>, j: nat)
    requires Ok(s) && Lists(owners, Owners(s.tables)) && AddMemberships(s, owners).Some?
    requires |s.memberships| <= j < |AddMemberships(s, owners).value.memberships|
    ensures OwnerJoins(s, Owners(s.tables), AddMemberships(s, owners).value.memberships[j])
  {
    var pairs := Collect(owners, NewPairs(s));
    PairsAreDistinct(s, owners);
    NewPairsAreNew(s, owners);
    PairsLand(s.memberships, pairs, s.next);
    var p := pairs[j - |s.memberships|];
    var o := CollectedFrom(owners, NewPairs(s), p);
    OwnersAreLowered(s.tables, o);
    var u, g := UserBy(s.users, o).value, OrgBy(s.orgs, SlugOf(o)).value;
    assert o in Owners(s.tables) && u in s.users && g in s.orgs && u.email == o && g.slug == BackfillSlug(o);
  }

  /** NOTHING IS MADE FOR ANYBODY ELSE. Each organisation the run adds is named for an owner and has that owner's slug,
      and each membership it adds joins an owner's user with that owner's organisation. */
  lemma MadeForOwners(s: State, byUsers: seq<string>, byOrgs: seq<string>, byPairs: seq<string>)
    requires Ok(s) && Lists(byUsers, Owners(s.tables)) && Lists(byOrgs, Owners(s.tables))
    requires Lists(byPairs, Owners(s.tables))
    ensures Backfilled(s, byUsers, byOrgs, byPairs).Some?
    ensures var t := Backfilled(s, byUsers, byOrgs, byPairs).value;
      && (forall j :: |s.orgs| <= j < |t.orgs| ==>
            t.orgs[j].name in Owners(s.tables) && t.orgs[j].slug == BackfillSlug(t.orgs[j].name))
      && (forall j :: |s.memberships| <= j < |t.memberships| ==> OwnerJoins(t, Owners(s.tables), t.memberships[j]))
  {
    BackfillLands(s, byUsers, byOrgs, byPairs);
    UsersStep(s, byUsers);
    var a := AddUsers(s, byUsers).value;
    OrgsStep(a, byOrgs);
    var b := AddOrgs(a, byOrgs).value;
    PairsStep(b, byPairs);
    var t := Backfilled(s, byUsers, byOrgs, byPairs).value;
    forall j | |s.orgs| <= j < |t.orgs|
      ensures t.orgs[j].name in Owners(s.tables) && t.orgs[j].slug == BackfillSlug(t.orgs[j].name) {
      OrgsMadeFor(a, byOrgs, j);
    }
    forall j | |s.memberships| <= j < |t.memberships| ensures OwnerJoins(t, Owners(s.tables), t.memberships[j]) {
      PairsMadeFor(b, byPairs, j);
    }
  }
}
