/** src/meshpipeline/application/account_service.py: sign-ins, interleaved at every database statement.

    Each request is a process with a program counter and an open transaction. Reads see committed
    rows (and the process's own writes); a write holds its row, or its unique key, until the
    transaction ends, so a conflicting write of another process waits. A request that raises, and a
    process that dies, roll back. Account erasure is one step of its own. */
module Accounts {
  import opened Wrappers

  /** A verified token: who presents it, the lowercased address, and whether it is proven. */
  datatype Token = Token(uid: string, email: string, verified: bool)

  datatype User = User(email: string, uid: Option<string>, verified: bool)

  /** The committed tables. An organisation records the uid its slug was derived from, if any;
      `grants` holds the signup grant of an organisation under its deterministic entry id. */
  datatype Db = Db(users: map<nat, User>, orgs: map<nat, Option<string>>, members: set<(nat, nat)>,
                   grants: map<nat, int>, claims: set<string>)

  /** Uncommitted writes: the users row this transaction holds, with its new image, and what
      provisioning has added so far. */
  datatype Tx = Tx(row: Option<nat>, image: User, inserted: bool,
                   org: Option<nat>, member: bool, claim: Option<string>, grant: int)

  const EMPTY := Tx(None, User("", None, false), false, None, false, None, 0)

  datatype Pc =
    | ReadUid | ReadEmail | Insert | Conflicted | ConflictedEmail
    | Link(row: nat, seen: User) | Repoint(row: nat, from: string) | Attach(row: nat) | AttachLost(row: nat)
    | LoginVerify(row: nat) | LoginStamp(row: nat) | ReadMembership(row: nat)
    | Lock(row: nat) | ReReadMembership(row: nat)
    | CreateOrg(row: nat) | CreateMembership(row: nat) | Claim(row: nat) | Grant(row: nat) | Commit(row: nat)

  datatype Process = Process(token: Token, pc: Pc, tx: Tx)

  /** `nextUser` and `nextOrg` stand for fresh random ids. */
  datatype State = State(db: Db, procs: map<nat, Process>, nextUser: nat, nextOrg: nat)

  /** Deployment settings, and the digest and withheld-domain rules of signup_claims. */
  datatype Config = Config(signupEnabled: bool, amount: int, withheld: string -> bool, digest: string -> string)

  datatype Action =
    | Begin(p: nat, token: Token)
    | Statement(p: nat, found: Option<nat>)
    | Abort(p: nat)
    | Erase(org: nat)

  // ---- reads ------------------------------------------------------------------------------------

  ghost predicate ByUid(db: Db, uid: string, found: Option<nat>) {
    match found
    case Some(r) => r in db.users && db.users[r].uid == Some(uid)
    case None => forall r :: r in db.users ==> db.users[r].uid != Some(uid)
  }

  ghost predicate ByEmail(db: Db, email: string, found: Option<nat>) {
    match found
    case Some(r) => r in db.users && db.users[r].email == email
    case None => forall r :: r in db.users ==> db.users[r].email != email
  }

  ghost predicate OrgForEmail(db: Db, email: string, found: Option<nat>) {
    match found
    case Some(o) => exists m :: m in db.members && m.1 == o && m.0 in db.users && db.users[m.0].email == email
    case None => forall m :: m in db.members && m.0 in db.users ==> db.users[m.0].email != email
  }

  // ---- locks ------------------------------------------------------------------------------------

  /** No other open transaction holds the users row `r`. */
  ghost predicate Unlocked(s: State, p: nat, r: nat) {
    forall q :: q in s.procs && q != p ==> s.procs[q].tx.row != Some(r)
  }

  /** No other open transaction is about to write this address or this uid. */
  ghost predicate KeysFree(s: State, p: nat, token: Token) {
    forall q :: q in s.procs && q != p && s.procs[q].tx.row.Some? ==>
      s.procs[q].tx.image.email != token.email && s.procs[q].tx.image.uid != Some(token.uid)
  }

  ghost predicate UidFree(s: State, p: nat, r: nat, uid: string) {
    && (forall t :: t in s.db.users && t != r ==> s.db.users[t].uid != Some(uid))
    && (forall q :: q in s.procs && q != p && s.procs[q].tx.row.Some? ==> s.procs[q].tx.image.uid != Some(uid))
  }

  // ---- one statement of one request -------------------------------------------------------------

  /** What follows once the users row is known: the login stamp, verification first. */
  function Resolved(token: Token, r: nat): Pc {
    if token.verified then LoginVerify(r) else LoginStamp(r)
  }

  function Goto(s: State, p: nat, pc: Pc): State
    requires p in s.procs
  {
    s.(procs := s.procs[p := s.procs[p].(pc := pc)])
  }

  function GotoWith(s: State, p: nat, pc: Pc, tx: Tx): State
    requires p in s.procs
  {
    s.(procs := s.procs[p := s.procs[p].(pc := pc, tx := tx)])
  }

  /** The request raised: its transaction is rolled back. */
  function Refused(s: State, p: nat): State {
    s.(procs := s.procs - {p})
  }

  /** The users row is created, or one of its two unique indexes refuses it and the savepoint is
      rolled back. */
  ghost predicate InsertStep(s: State, p: nat, after: State)
    requires p in s.procs
  {
    var token := s.procs[p].token;
    if exists t :: t in s.db.users && (s.db.users[t].email == token.email || s.db.users[t].uid == Some(token.uid)) then
      after == GotoWith(s, p, Conflicted, EMPTY)
    else
      && KeysFree(s, p, token)
      && after == GotoWith(s, p, Resolved(token, s.nextUser),
                        EMPTY.(row := Some(s.nextUser), image := User(token.email, Some(token.uid), false),
                            inserted := true))
               .(nextUser := s.nextUser + 1)
  }

  ghost predicate FindStep(s: State, p: nat, found: Option<nat>, after: State, cfg: Config)
    requires p in s.procs
  {
    var token, tx := s.procs[p].token, s.procs[p].tx;
    match s.procs[p].pc
    case ReadUid =>
      && ByUid(s.db, token.uid, found)
      && after == Goto(s, p, if found.Some? then Resolved(token, found.value) else ReadEmail)
    case ReadEmail =>
      && ByEmail(s.db, token.email, found)
      && (if found.Some? then after == Goto(s, p, Link(found.value, s.db.users[found.value]))
          else if cfg.signupEnabled then after == Goto(s, p, Insert)
          else after == Refused(s, p))
    case Insert => InsertStep(s, p, after)
    case Conflicted =>
      && ByUid(s.db, token.uid, found)
      && after == Goto(s, p, if found.Some? then Resolved(token, found.value) else ConflictedEmail)
    case ConflictedEmail =>
      && ByEmail(s.db, token.email, found)
      && (if found.Some? then after == Goto(s, p, Link(found.value, s.db.users[found.value]))
          else after == Refused(s, p))
    case _ => false
  }

  /** The guarded UPDATE that writes the token's uid into row `r`. */
  ghost predicate TakeOver(s: State, p: nat, r: nat, after: State)
    requires p in s.procs && r in s.db.users
  {
    var x := s.procs[p];
    && Unlocked(s, p, r)
    && after == if UidFree(s, p, r, x.token.uid)
             then GotoWith(s, p, Resolved(x.token, r),
                           x.tx.(row := Some(r), image := s.db.users[r].(uid := Some(x.token.uid))))
             else Refused(s, p)
  }

  ghost predicate LinkStep(s: State, p: nat, found: Option<nat>, after: State)
    requires p in s.procs
  {
    var token, tx := s.procs[p].token, s.procs[p].tx;
    match s.procs[p].pc
    case Link(r, seen) =>
      if seen.uid == Some(token.uid) then
        after == Goto(s, p, Resolved(token, r))
      else if seen.uid.Some? then
        if token.verified && !seen.verified then
          && OrgForEmail(s.db, seen.email, found)
          && after == if found.None? then Goto(s, p, Repoint(r, seen.uid.value)) else Refused(s, p)
        else
          after == Refused(s, p)
      else
        after == if token.verified then Goto(s, p, Attach(r)) else Refused(s, p)
    case Repoint(r, from) =>
      if r in s.db.users && s.db.users[r].uid == Some(from) && !s.db.users[r].verified then
        TakeOver(s, p, r, after)
      else
        after == Refused(s, p)
    case Attach(r) =>
      if r in s.db.users && s.db.users[r].uid.None? then
        TakeOver(s, p, r, after)
      else
        after == Goto(s, p, AttachLost(r))
    case AttachLost(r) =>
      && ByUid(s.db, token.uid, found)
      && after == if found == Some(r) then Goto(s, p, Resolved(token, r)) else Refused(s, p)
    case _ => false
  }

  /** Takes the row's lock when the row exists, leaving the image as committed. */
  function Holding(s: State, tx: Tx, r: nat): Tx {
    if tx.row == Some(r) || r !in s.db.users then tx
    else tx.(row := Some(r), image := s.db.users[r])
  }

  /** `email_verified_at` is stamped where it is still null. */
  ghost predicate VerifyStep(s: State, p: nat, r: nat, after: State)
    requires p in s.procs
  {
    var tx := s.procs[p].tx;
    if tx.row == Some(r) then
      after == GotoWith(s, p, LoginStamp(r), tx.(image := tx.image.(verified := true)))
    else if r in s.db.users && !s.db.users[r].verified then
      && Unlocked(s, p, r)
      && after == GotoWith(s, p, LoginStamp(r), tx.(row := Some(r), image := s.db.users[r].(verified := true)))
    else
      after == Goto(s, p, LoginStamp(r))
  }

  ghost predicate LoginStep(s: State, p: nat, found: Option<nat>, after: State, cfg: Config)
    requires p in s.procs
  {
    var token, tx := s.procs[p].token, s.procs[p].tx;
    match s.procs[p].pc
    case LoginVerify(r) => VerifyStep(s, p, r, after)
    case LoginStamp(r) =>
      && (r in s.db.users ==> Unlocked(s, p, r))
      && after == GotoWith(s, p, ReadMembership(r), Holding(s, tx, r))
    case ReadMembership(r) =>
      && OrgForEmail(s.db, token.email, found)
      && after == Goto(s, p, if found.None? && token.verified && cfg.signupEnabled then Lock(r) else Commit(r))
    case Lock(r) =>
      && (r in s.db.users ==> Unlocked(s, p, r))
      && after == GotoWith(s, p, ReReadMembership(r), Holding(s, tx, r))
    case ReReadMembership(r) =>
      && OrgForEmail(s.db, token.email, found)
      && after == Goto(s, p, if found.Some? then Commit(r) else CreateOrg(r))
    case _ => false
  }

  ghost predicate ProvisionStep(s: State, p: nat, after: State, cfg: Config)
    requires p in s.procs
  {
    var token, tx := s.procs[p].token, s.procs[p].tx;
    match s.procs[p].pc
    case CreateOrg(r) =>
      if exists o :: o in s.db.orgs && s.db.orgs[o] == Some(token.uid) then
        after == Refused(s, p)
      else
        && (forall q :: q in s.procs && q != p && s.procs[q].tx.org.Some? ==> s.procs[q].token.uid != token.uid)
        && after == GotoWith(s, p, CreateMembership(r), tx.(org := Some(s.nextOrg))).(nextOrg := s.nextOrg + 1)
    case CreateMembership(r) =>
      after == if tx.row == Some(r) || r in s.db.users then GotoWith(s, p, Claim(r), tx.(member := true))
            else Refused(s, p)
    case Claim(r) =>
      var d := cfg.digest(token.email);
      if cfg.amount <= 0 || cfg.withheld(token.email) || d in s.db.claims then
        after == Goto(s, p, Commit(r))
      else
        && (forall q :: q in s.procs && q != p ==> s.procs[q].tx.claim != Some(d))
        && after == GotoWith(s, p, Grant(r), tx.(claim := Some(d)))
    case Grant(r) =>
      after == GotoWith(s, p, Commit(r), tx.(grant := cfg.amount))
    case Commit(r) =>
      after == s.(db := Applied(s.db, token, tx), procs := s.procs - {p})
    case _ => false
  }

  /** The tables once a transaction has committed. */
  function Applied(db: Db, token: Token, tx: Tx): Db {
    var users := if tx.row.Some? then db.users[tx.row.value := tx.image] else db.users;
    if tx.member && tx.row.Some? && tx.org.Some? then
      Db(users, db.orgs[tx.org.value := Some(token.uid)], db.members + {(tx.row.value, tx.org.value)},
         if tx.grant > 0 && tx.org.value !in db.grants then db.grants[tx.org.value := tx.grant] else db.grants,
         if tx.claim.Some? then db.claims + {tx.claim.value} else db.claims)
    else
      db.(users := users)
  }

  /** The members of an erased organisation who belong to no other. */
  function Leaving(db: Db, org: nat): set<nat> {
    set m | m in db.members && m.1 == org && (forall n :: n in db.members && n.0 == m.0 ==> n.1 == org) :: m.0
  }

  ghost predicate EraseStep(s: State, org: nat, after: State) {
    && org in s.db.orgs
    && (forall m, q :: m in s.db.members && m.1 == org && q in s.procs ==> s.procs[q].tx.row != Some(m.0))
    && after == s.(db := s.db.(users := s.db.users - Leaving(s.db, org),
                            members := (set m | m in s.db.members && m.1 != org),
                            orgs := s.db.orgs[org := None]))
  }

  ghost predicate Next(cfg: Config, s: State, a: Action, after: State) {
    match a
    case Begin(p, token) =>
      p !in s.procs && after == s.(procs := s.procs[p := Process(token, ReadUid, EMPTY)])
    case Statement(p, found) =>
      && p in s.procs
      && (FindStep(s, p, found, after, cfg) || LinkStep(s, p, found, after) || LoginStep(s, p, found, after, cfg)
          || ProvisionStep(s, p, after, cfg))
    case Abort(p) => p in s.procs && after == Refused(s, p)
    case Erase(org) => EraseStep(s, org, after)
  }

  // ---- the invariant ----------------------------------------------------------------------------

  ghost predicate DbInv(db: Db, addr: string -> string) {
    && (forall r, t :: r in db.users && t in db.users && r != t ==> db.users[r].email != db.users[t].email)
    && (forall r :: r in db.users && db.users[r].uid.Some? ==> db.users[r].email == addr(db.users[r].uid.value))
    && (forall m :: m in db.members ==> m.0 in db.users && m.1 in db.orgs)
    && (forall m, n :: m in db.members && n in db.members && m.0 == n.0 ==> m == n)
    && (forall m :: m in db.members && db.users[m.0].uid.Some? ==> db.users[m.0].verified)
    && (forall o :: o in db.orgs && db.orgs[o].Some? ==> Founded(db, o, addr(db.orgs[o].value)))
    && db.grants.Keys <= db.orgs.Keys
  }

  /** Someone at this address belongs to the organisation. */
  ghost predicate Founded(db: Db, o: nat, email: string) {
    exists m :: m in db.members && m.1 == o && m.0 in db.users && db.users[m.0].email == email
  }

  function PcRow(pc: Pc): Option<nat> {
    match pc
    case ReadUid => None
    case ReadEmail => None
    case Insert => None
    case Conflicted => None
    case ConflictedEmail => None
    case _ => Some(pc.row)
  }

  predicate Resolving(pc: Pc) {
    pc.ReadUid? || pc.ReadEmail? || pc.Insert? || pc.Conflicted? || pc.ConflictedEmail?
    || pc.Link? || pc.Repoint? || pc.Attach? || pc.AttachLost?
  }

  predicate Provisioning(pc: Pc) {
    pc.CreateOrg? || pc.CreateMembership? || pc.Claim? || pc.Grant?
  }

  /** The users row a transaction holds, and what it may do to it. */
  ghost predicate RowInv(db: Db, addr: string -> string, x: Process) {
    var tx := x.tx;
    tx.row.Some? ==>
      && tx.image.email == x.token.email
      && (tx.image.uid.Some? ==> addr(tx.image.uid.value) == tx.image.email)
      && (forall t :: t in db.users && t != tx.row.value ==> db.users[t].email != tx.image.email)
      && PcRow(x.pc) == tx.row
      && (if tx.inserted then tx.row.value !in db.users && tx.image.uid == Some(x.token.uid)
          else
            && tx.row.value in db.users
            && db.users[tx.row.value].email == tx.image.email
            && (db.users[tx.row.value].verified ==> tx.image.verified)
            && (tx.image.uid != db.users[tx.row.value].uid ==>
                  && x.token.verified && tx.image.uid == Some(x.token.uid)
                  && (db.users[tx.row.value].uid.None? || !db.users[tx.row.value].verified)))
  }

  /** Where a request stands, and what it may rely on there. */
  ghost predicate PcInv(db: Db, cfg: Config, x: Process) {
    var r, pc, tx := PcRow(x.pc), x.pc, x.tx;
    && (r.Some? && r.value in db.users ==> db.users[r.value].email == x.token.email)
    && (Resolving(pc) ==> tx == EMPTY)
    && (pc.Link? ==> pc.seen.email == x.token.email)
    && (pc.Repoint? || pc.Attach? || pc.AttachLost? || pc.LoginVerify? ==> x.token.verified)
    && (tx.row.None? ==> !tx.inserted)
    && (x.token.verified && !Resolving(pc) && !pc.LoginVerify? ==>
          && (tx.row.Some? ==> tx.image.verified)
          && (tx.row.None? && r.value in db.users ==> db.users[r.value].verified))
    && (!Resolving(pc) && !pc.LoginVerify? && !pc.LoginStamp? ==> tx.row == r || r.value !in db.users)
    && (pc.Lock? || pc.ReReadMembership? ==> x.token.verified && cfg.signupEnabled)
    && (Provisioning(pc) || tx.org.Some? ==>
          x.token.verified && cfg.signupEnabled && (forall m :: m in db.members ==> m.0 != r.value))
    && (tx.org.Some? ==> pc.CreateMembership? || pc.Claim? || pc.Grant? || pc.Commit?)
    && (pc.CreateMembership? || pc.Claim? || pc.Grant? ==> tx.org.Some?)
    && (pc.Claim? || pc.Grant? ==> tx.member)
    && (pc.Commit? && tx.org.Some? ==> tx.member)
    && (tx.member ==> tx.org.Some? && tx.row.Some?)
    && (tx.org.Some? ==> tx.org.value !in db.orgs)
    && (tx.claim.Some? ==> tx.member && tx.claim.value == cfg.digest(x.token.email) && tx.claim.value !in db.claims)
    && (pc.Grant? ==> tx.claim.Some? && cfg.amount > 0)
    && (tx.grant != 0 ==> tx.claim.Some? && tx.grant == cfg.amount && cfg.amount > 0)
  }

  ghost predicate IdsInv(s: State, x: Process) {
    && (PcRow(x.pc).Some? ==> PcRow(x.pc).value < s.nextUser)
    && (x.tx.org.Some? ==> x.tx.org.value < s.nextOrg)
  }

  ghost predicate ProcInv(s: State, cfg: Config, addr: string -> string, x: Process) {
    && x.token.email == addr(x.token.uid)
    && RowInv(s.db, addr, x)
    && PcInv(s.db, cfg, x)
    && IdsInv(s, x)
  }

  /** Two open transactions never write the same thing. */
  ghost predicate Apart(x: Process, y: Process) {
    && (x.tx.row.Some? && y.tx.row.Some? ==> x.tx.row != y.tx.row && x.tx.image.email != y.tx.image.email)
    && (y.tx.inserted ==> PcRow(x.pc) != y.tx.row)
    && (x.tx.org.Some? ==> x.tx.org != y.tx.org)
    && (x.tx.claim.Some? ==> x.tx.claim != y.tx.claim)
  }

  ghost predicate Inv(s: State, cfg: Config, addr: string -> string) {
    && DbInv(s.db, addr)
    && (forall r :: r in s.db.users ==> r < s.nextUser)
    && (forall o :: o in s.db.orgs ==> o < s.nextOrg)
    && (forall p :: p in s.procs ==> ProcInv(s, cfg, addr, s.procs[p]))
    && (forall p, q :: p in s.procs && q in s.procs && p != q ==> Apart(s.procs[p], s.procs[q]))
  }

  // ---- every step keeps it ----------------------------------------------------------------------

  /** A step that changes one process and no table. */
  lemma LocalStep(s: State, after: State, cfg: Config, addr: string -> string, p: nat, x: Process)
    requires Inv(s, cfg, addr)
    requires after.db == s.db && after.procs == s.procs[p := x] && s.nextUser <= after.nextUser
    requires s.nextOrg <= after.nextOrg
    requires ProcInv(after, cfg, addr, x)
    requires forall q :: q in s.procs && q != p ==> Apart(x, s.procs[q]) && Apart(s.procs[q], x)
    ensures Inv(after, cfg, addr)
  {
    forall q | q in after.procs ensures ProcInv(after, cfg, addr, after.procs[q]) {
      if q != p {
        assert ProcInv(s, cfg, addr, s.procs[q]);
      }
    }
  }

  lemma RefusedKeeps(s: State, after: State, cfg: Config, addr: string -> string, p: nat)
    requires Inv(s, cfg, addr) && after == Refused(s, p)
    ensures Inv(after, cfg, addr)
  {
    forall q | q in after.procs ensures ProcInv(after, cfg, addr, after.procs[q]) {
      assert ProcInv(s, cfg, addr, s.procs[q]);
    }
  }

  /** What a process may turn into without touching what others hold. */
  lemma SameHoldings(s: State, cfg: Config, addr: string -> string, p: nat, x: Process)
    requires Inv(s, cfg, addr) && p in s.procs
    requires x.tx == s.procs[p].tx || x.tx == EMPTY
    requires PcRow(x.pc) == PcRow(s.procs[p].pc) || PcRow(x.pc).None? || PcRow(x.pc).value in s.db.users
    ensures forall q :: q in s.procs && q != p ==> Apart(x, s.procs[q]) && Apart(s.procs[q], x)
  {
    assert ProcInv(s, cfg, addr, s.procs[p]);
    forall q | q in s.procs && q != p ensures Apart(x, s.procs[q]) && Apart(s.procs[q], x) {
      assert ProcInv(s, cfg, addr, s.procs[q]);
      assert Apart(s.procs[p], s.procs[q]) && Apart(s.procs[q], s.procs[p]);
    }
  }

  /** What a process may take hold of: a committed row nobody else holds. */
  lemma TakesRow(s: State, cfg: Config, addr: string -> string, p: nat, r: nat, x: Process)
    requires Inv(s, cfg, addr) && p in s.procs && r in s.db.users && Unlocked(s, p, r)
    requires x.tx == s.procs[p].tx.(row := Some(r), image := x.tx.image) && PcRow(x.pc) == Some(r)
    requires x.tx.image.email == s.db.users[r].email && !x.tx.inserted
    ensures forall q :: q in s.procs && q != p ==> Apart(x, s.procs[q]) && Apart(s.procs[q], x)
  {
    assert ProcInv(s, cfg, addr, s.procs[p]);
    forall q | q in s.procs && q != p ensures Apart(x, s.procs[q]) && Apart(s.procs[q], x) {
      assert ProcInv(s, cfg, addr, s.procs[q]);
      assert Apart(s.procs[p], s.procs[q]) && Apart(s.procs[q], s.procs[p]);
    }
  }

  lemma FindStepKeeps(s: State, after: State, cfg: Config, addr: string -> string, p: nat, found: Option<nat>)
    requires Inv(s, cfg, addr) && p in s.procs && FindStep(s, p, found, after, cfg) && !s.procs[p].pc.Insert?
    ensures Inv(after, cfg, addr)
  {
    assert ProcInv(s, cfg, addr, s.procs[p]);
    if p !in after.procs {
      RefusedKeeps(s, after, cfg, addr, p);
    } else {
      SameHoldings(s, cfg, addr, p, after.procs[p]);
      LocalStep(s, after, cfg, addr, p, after.procs[p]);
    }
  }

  /** A row that is inserted is nobody else's, and nobody else is writing its keys. */
  lemma InsertApart(s: State, cfg: Config, addr: string -> string, p: nat, x: Process)
    requires Inv(s, cfg, addr) && p in s.procs && KeysFree(s, p, s.procs[p].token)
    requires x.tx == EMPTY.(row := Some(s.nextUser), image := x.tx.image, inserted := true)
    requires x.tx.image.email == s.procs[p].token.email && PcRow(x.pc) == Some(s.nextUser)
    ensures forall q :: q in s.procs && q != p ==> Apart(x, s.procs[q]) && Apart(s.procs[q], x)
  {
    forall q | q in s.procs && q != p ensures Apart(x, s.procs[q]) && Apart(s.procs[q], x) {
      assert ProcInv(s, cfg, addr, s.procs[q]);
    }
  }

  lemma InsertStepKeeps(s: State, after: State, cfg: Config, addr: string -> string, p: nat)
    requires Inv(s, cfg, addr) && p in s.procs && s.procs[p].pc.Insert? && InsertStep(s, p, after)
    ensures Inv(after, cfg, addr)
  {
    assert ProcInv(s, cfg, addr, s.procs[p]);
    var x := after.procs[p];
    if x.pc.Conflicted? {
      SameHoldings(s, cfg, addr, p, x);
    } else {
      InsertApart(s, cfg, addr, p, x);
    }
    LocalStep(s, after, cfg, addr, p, x);
  }

  lemma LinkStepKeeps(s: State, after: State, cfg: Config, addr: string -> string, p: nat, found: Option<nat>)
    requires Inv(s, cfg, addr) && p in s.procs && LinkStep(s, p, found, after)
    requires p in after.procs ==> after.procs[p].tx == s.procs[p].tx
    ensures Inv(after, cfg, addr)
  {
    assert ProcInv(s, cfg, addr, s.procs[p]);
    if p !in after.procs {
      RefusedKeeps(s, after, cfg, addr, p);
    } else {
      SameHoldings(s, cfg, addr, p, after.procs[p]);
      LocalStep(s, after, cfg, addr, p, after.procs[p]);
    }
  }

  lemma TakeOverKeeps(s: State, after: State, cfg: Config, addr: string -> string, p: nat, r: nat)
    requires Inv(s, cfg, addr) && p in s.procs && r in s.db.users && TakeOver(s, p, r, after)
    requires s.procs[p].pc.Repoint? || s.procs[p].pc.Attach?
    requires s.procs[p].pc.row == r && (s.db.users[r].uid.None? || !s.db.users[r].verified)
    ensures Inv(after, cfg, addr)
  {
    assert ProcInv(s, cfg, addr, s.procs[p]);
    if p !in after.procs {
      RefusedKeeps(s, after, cfg, addr, p);
    } else {
      TakesRow(s, cfg, addr, p, r, after.procs[p]);
      LocalStep(s, after, cfg, addr, p, after.procs[p]);
    }
  }

  lemma VerifyStepKeeps(s: State, after: State, cfg: Config, addr: string -> string, p: nat, r: nat)
    requires Inv(s, cfg, addr) && p in s.procs && s.procs[p].pc == LoginVerify(r) && VerifyStep(s, p, r, after)
    ensures Inv(after, cfg, addr)
  {
    assert ProcInv(s, cfg, addr, s.procs[p]);
    var x := after.procs[p];
    if s.procs[p].tx.row.Some? {
      forall q | q in s.procs && q != p ensures Apart(x, s.procs[q]) && Apart(s.procs[q], x) {
        assert Apart(s.procs[p], s.procs[q]) && Apart(s.procs[q], s.procs[p]);
      }
    } else if x.tx == s.procs[p].tx {
      SameHoldings(s, cfg, addr, p, x);
    } else {
      TakesRow(s, cfg, addr, p, r, x);
    }
    LocalStep(s, after, cfg, addr, p, x);
  }

  lemma StampStepKeeps(s: State, after: State, cfg: Config, addr: string -> string, p: nat, found: Option<nat>)
    requires Inv(s, cfg, addr) && p in s.procs && LoginStep(s, p, found, after, cfg)
    requires s.procs[p].pc.LoginStamp? || s.procs[p].pc.Lock?
    ensures Inv(after, cfg, addr)
  {
    assert ProcInv(s, cfg, addr, s.procs[p]);
    if after.procs[p].tx == s.procs[p].tx {
      SameHoldings(s, cfg, addr, p, after.procs[p]);
    } else {
      TakesRow(s, cfg, addr, p, s.procs[p].pc.row, after.procs[p]);
    }
    LocalStep(s, after, cfg, addr, p, after.procs[p]);
  }

  lemma MembershipStepKeeps(s: State, after: State, cfg: Config, addr: string -> string, p: nat, found: Option<nat>)
    requires Inv(s, cfg, addr) && p in s.procs && LoginStep(s, p, found, after, cfg)
    requires s.procs[p].pc.ReadMembership?
    ensures Inv(after, cfg, addr)
  {
    assert ProcInv(s, cfg, addr, s.procs[p]);
    SameHoldings(s, cfg, addr, p, after.procs[p]);
    LocalStep(s, after, cfg, addr, p, after.procs[p]);
  }

  lemma ReReadStepKeeps(s: State, after: State, cfg: Config, addr: string -> string, p: nat, found: Option<nat>)
    requires Inv(s, cfg, addr) && p in s.procs && LoginStep(s, p, found, after, cfg)
    requires s.procs[p].pc.ReReadMembership?
    ensures Inv(after, cfg, addr)
  {
    assert ProcInv(s, cfg, addr, s.procs[p]);
    SameHoldings(s, cfg, addr, p, after.procs[p]);
    LocalStep(s, after, cfg, addr, p, after.procs[p]);
  }

  lemma ProvisionStepKeeps(s: State, after: State, cfg: Config, addr: string -> string, p: nat)
    requires Inv(s, cfg, addr) && p in s.procs && ProvisionStep(s, p, after, cfg)
    requires s.procs[p].pc.CreateMembership? || s.procs[p].pc.Grant?
    ensures Inv(after, cfg, addr)
  {
    assert ProcInv(s, cfg, addr, s.procs[p]);
    if p !in after.procs {
      RefusedKeeps(s, after, cfg, addr, p);
    } else {
      var x := after.procs[p];
      forall q | q in s.procs && q != p ensures Apart(x, s.procs[q]) && Apart(s.procs[q], x) {
        assert Apart(s.procs[p], s.procs[q]) && Apart(s.procs[q], s.procs[p]);
      }
      LocalStep(s, after, cfg, addr, p, x);
    }
  }

  lemma CreateOrgKeeps(s: State, after: State, cfg: Config, addr: string -> string, p: nat)
    requires Inv(s, cfg, addr) && p in s.procs && ProvisionStep(s, p, after, cfg) && s.procs[p].pc.CreateOrg?
    ensures Inv(after, cfg, addr)
  {
    assert ProcInv(s, cfg, addr, s.procs[p]);
    if p !in after.procs {
      RefusedKeeps(s, after, cfg, addr, p);
    } else {
      var x := after.procs[p];
      forall q | q in s.procs && q != p ensures Apart(x, s.procs[q]) && Apart(s.procs[q], x) {
        assert IdsInv(s, s.procs[q]) by { assert ProcInv(s, cfg, addr, s.procs[q]); }
        assert Apart(s.procs[p], s.procs[q]) && Apart(s.procs[q], s.procs[p]);
      }
      LocalStep(s, after, cfg, addr, p, x);
    }
  }

  lemma ClaimKeeps(s: State, after: State, cfg: Config, addr: string -> string, p: nat)
    requires Inv(s, cfg, addr) && p in s.procs && ProvisionStep(s, p, after, cfg) && s.procs[p].pc.Claim?
    ensures Inv(after, cfg, addr)
  {
    assert ProcInv(s, cfg, addr, s.procs[p]);
    var x := after.procs[p];
    forall q | q in s.procs && q != p ensures Apart(x, s.procs[q]) && Apart(s.procs[q], x) {
      assert Apart(s.procs[p], s.procs[q]) && Apart(s.procs[q], s.procs[p]);
    }
    LocalStep(s, after, cfg, addr, p, x);
  }

  /** The tables stay consistent when a sign-in that provisioned nothing commits. */
  lemma LoginCommitDb(s: State, cfg: Config, addr: string -> string, x: Process)
    requires DbInv(s.db, addr) && ProcInv(s, cfg, addr, x) && x.pc.Commit? && !x.tx.member
    ensures DbInv(Applied(s.db, x.token, x.tx), addr)
  {
    var db, dbAfter := s.db, Applied(s.db, x.token, x.tx);
    forall o | o in dbAfter.orgs && dbAfter.orgs[o].Some? ensures Founded(dbAfter, o, addr(dbAfter.orgs[o].value)) {
      assert Founded(db, o, addr(db.orgs[o].value));
    }
  }

  /** ... and when one that created an organisation does. */
  lemma ProvisionCommitDb(s: State, cfg: Config, addr: string -> string, x: Process)
    requires DbInv(s.db, addr) && ProcInv(s, cfg, addr, x) && x.pc.Commit? && x.tx.member
    ensures DbInv(Applied(s.db, x.token, x.tx), addr)
  {
    var db, dbAfter := s.db, Applied(s.db, x.token, x.tx);
    assert (x.tx.row.value, x.tx.org.value) in dbAfter.members;
    forall o | o in dbAfter.orgs && dbAfter.orgs[o].Some? ensures Founded(dbAfter, o, addr(dbAfter.orgs[o].value)) {
      if o != x.tx.org.value {
        assert Founded(db, o, addr(db.orgs[o].value));
        var m :| m in db.members && m.1 == o && m.0 in db.users && db.users[m.0].email == addr(db.orgs[o].value);
        assert m in dbAfter.members;
      }
    }
  }

  /** A request in progress does not notice another one's commit. */
  lemma OthersKeep(s: State, after: State, cfg: Config, addr: string -> string, p: nat, q: nat)
    requires Inv(s, cfg, addr) && p in s.procs && q in s.procs && q != p && s.procs[p].pc.Commit?
    requires after == s.(db := Applied(s.db, s.procs[p].token, s.procs[p].tx), procs := s.procs - {p})
    ensures ProcInv(after, cfg, addr, s.procs[q])
  {
    assert ProcInv(s, cfg, addr, s.procs[p]) && ProcInv(s, cfg, addr, s.procs[q]);
    assert Apart(s.procs[p], s.procs[q]) && Apart(s.procs[q], s.procs[p]);
  }

  lemma CommitKeeps(s: State, after: State, cfg: Config, addr: string -> string, p: nat)
    requires Inv(s, cfg, addr) && p in s.procs && ProvisionStep(s, p, after, cfg) && s.procs[p].pc.Commit?
    ensures Inv(after, cfg, addr)
  {
    assert ProcInv(s, cfg, addr, s.procs[p]);
    if s.procs[p].tx.member {
      ProvisionCommitDb(s, cfg, addr, s.procs[p]);
    } else {
      LoginCommitDb(s, cfg, addr, s.procs[p]);
    }
    forall q | q in after.procs ensures ProcInv(after, cfg, addr, after.procs[q]) {
      OthersKeep(s, after, cfg, addr, p, q);
    }
  }

  lemma EraseDb(s: State, after: State, addr: string -> string, org: nat)
    requires DbInv(s.db, addr) && EraseStep(s, org, after)
    ensures DbInv(after.db, addr)
  {
    var db, dbAfter := s.db, after.db;
    forall m | m in dbAfter.members ensures m.0 in dbAfter.users && m.1 in dbAfter.orgs {
      assert m in db.members && m.1 != org;
    }
    forall o | o in dbAfter.orgs && dbAfter.orgs[o].Some? ensures Founded(dbAfter, o, addr(dbAfter.orgs[o].value)) {
      assert o != org && Founded(db, o, addr(db.orgs[o].value));
      var m :| m in db.members && m.1 == o && m.0 in db.users && db.users[m.0].email == addr(db.orgs[o].value);
      assert m in dbAfter.members;
    }
  }

  lemma EraseKeeps(s: State, after: State, cfg: Config, addr: string -> string, org: nat)
    requires Inv(s, cfg, addr) && EraseStep(s, org, after)
    ensures Inv(after, cfg, addr)
  {
    EraseDb(s, after, addr, org);
    forall q | q in after.procs ensures ProcInv(after, cfg, addr, after.procs[q]) {
      var x := s.procs[q];
      assert ProcInv(s, cfg, addr, x);
      if x.tx.row.Some? && !x.tx.inserted {
        assert x.tx.row.value in after.db.users;
      }
    }
  }

  lemma BeginKeeps(s: State, after: State, cfg: Config, addr: string -> string, p: nat, token: Token)
    requires Inv(s, cfg, addr) && Next(cfg, s, Begin(p, token), after) && token.email == addr(token.uid)
    ensures Inv(after, cfg, addr)
  {
    forall q | q in after.procs ensures ProcInv(after, cfg, addr, after.procs[q]) {
      if q != p {
        assert ProcInv(s, cfg, addr, s.procs[q]);
      }
    }
  }

  /** Every uid that signs in presents the one address `addr` gives it. */
  ghost predicate OneAddress(a: Action, addr: string -> string) {
    a.Begin? ==> a.token.email == addr(a.token.uid)
  }

  lemma NextKeeps(s: State, after: State, cfg: Config, addr: string -> string, a: Action)
    requires Inv(s, cfg, addr) && Next(cfg, s, a, after) && OneAddress(a, addr)
    ensures Inv(after, cfg, addr)
  {
    match a
    case Begin(p, token) => BeginKeeps(s, after, cfg, addr, p, token);
    case Abort(p) => RefusedKeeps(s, after, cfg, addr, p);
    case Erase(org) => EraseKeeps(s, after, cfg, addr, org);
    case Statement(p, found) => StatementKeeps(s, after, cfg, addr, p, found);
  }

  lemma StatementKeeps(s: State, after: State, cfg: Config, addr: string -> string, p: nat, found: Option<nat>)
    requires Inv(s, cfg, addr) && Next(cfg, s, Statement(p, found), after)
    ensures Inv(after, cfg, addr)
  {
    match s.procs[p].pc
    case Insert => InsertStepKeeps(s, after, cfg, addr, p);
    case ReadUid => FindStepKeeps(s, after, cfg, addr, p, found);
    case ReadEmail => FindStepKeeps(s, after, cfg, addr, p, found);
    case Conflicted => FindStepKeeps(s, after, cfg, addr, p, found);
    case ConflictedEmail => FindStepKeeps(s, after, cfg, addr, p, found);
    case Link(_, _) => LinkStepKeeps(s, after, cfg, addr, p, found);
    case Repoint(r, from) =>
      if r in s.db.users && s.db.users[r].uid == Some(from) && !s.db.users[r].verified {
        TakeOverKeeps(s, after, cfg, addr, p, r);
      } else {
        LinkStepKeeps(s, after, cfg, addr, p, found);
      }
    case Attach(r) =>
      if r in s.db.users && s.db.users[r].uid.None? {
        TakeOverKeeps(s, after, cfg, addr, p, r);
      } else {
        LinkStepKeeps(s, after, cfg, addr, p, found);
      }
    case AttachLost(_) => LinkStepKeeps(s, after, cfg, addr, p, found);
    case LoginVerify(r) => VerifyStepKeeps(s, after, cfg, addr, p, r);
    case LoginStamp(_) => StampStepKeeps(s, after, cfg, addr, p, found);
    case Lock(_) => StampStepKeeps(s, after, cfg, addr, p, found);
    case ReadMembership(_) => MembershipStepKeeps(s, after, cfg, addr, p, found);
    case ReReadMembership(_) => ReReadStepKeeps(s, after, cfg, addr, p, found);
    case CreateOrg(_) => CreateOrgKeeps(s, after, cfg, addr, p);
    case CreateMembership(_) => ProvisionStepKeeps(s, after, cfg, addr, p);
    case Claim(_) => ClaimKeeps(s, after, cfg, addr, p);
    case Grant(_) => ProvisionStepKeeps(s, after, cfg, addr, p);
    case Commit(_) => CommitKeeps(s, after, cfg, addr, p);
  }

  // ---- whole runs -------------------------------------------------------------------------------

  /** A consistent database nobody is signing in to: what the migrations leave, for instance. */
  ghost predicate Start(s: State, addr: string -> string) {
    && s.procs == map[] && DbInv(s.db, addr)
    && (forall r :: r in s.db.users ==> r < s.nextUser)
    && (forall o :: o in s.db.orgs ==> o < s.nextOrg)
  }

  ghost predicate Run(cfg: Config, addr: string -> string, states: seq<State>, acts: seq<Action>) {
    && |states| == |acts| + 1
    && Start(states[0], addr)
    && (forall i :: 0 <= i < |acts| ==> Next(cfg, states[i], acts[i], states[i + 1]) && OneAddress(acts[i], addr))
  }

  lemma {:induction false} RunKeeps(cfg: Config, addr: string -> string, states: seq<State>, acts: seq<Action>, i: nat)
    requires Run(cfg, addr, states, acts) && i < |states|
    ensures Inv(states[i], cfg, addr)
  {
    if i > 0 {
      RunKeeps(cfg, addr, states, acts, i - 1);
      NextKeeps(states[i - 1], states[i], cfg, addr, acts[i - 1]);
    }
  }

  lemma AtMostOne<T>(s: set<T>)
    requires forall x, y :: x in s && y in s ==> x == y
    ensures |s| <= 1
  {
    if s != {} {
      var x :| x in s;
      assert s == {x};
    }
  }

  function UsersOf(db: Db, email: string): set<nat> {
    set r | r in db.users && db.users[r].email == email
  }

  function MembershipsOf(db: Db, email: string): set<(nat, nat)> {
    set m | m in db.members && m.0 in db.users && db.users[m.0].email == email
  }

  /** The organisations whose slug was derived from a uid that presents this address. */
  function OrgsOf(db: Db, addr: string -> string, email: string): set<nat> {
    set o | o in db.orgs && db.orgs[o].Some? && addr(db.orgs[o].value) == email
  }

  /** The signup grants an address can spend. */
  function GrantsOf(db: Db, email: string): set<nat> {
    set m | m in MembershipsOf(db, email) && m.1 in db.grants :: m.1
  }

  /** However many sign-ins of an address interleave, every committed state holds at most one user,
      one membership, one organisation and one signup grant for it. */
  lemma OneOfEach(cfg: Config, addr: string -> string, states: seq<State>, acts: seq<Action>, i: nat, email: string)
    requires Run(cfg, addr, states, acts) && i < |states|
    ensures var db := states[i].db;
            |UsersOf(db, email)| <= 1 && |MembershipsOf(db, email)| <= 1
            && |OrgsOf(db, addr, email)| <= 1 && |GrantsOf(db, email)| <= 1
  {
    RunKeeps(cfg, addr, states, acts, i);
    var db := states[i].db;
    AtMostOne(UsersOf(db, email));
    AtMostOne(MembershipsOf(db, email));
    forall o, w | o in OrgsOf(db, addr, email) && w in OrgsOf(db, addr, email) ensures o == w {
      assert Founded(db, o, email) && Founded(db, w, email);
    }
    AtMostOne(OrgsOf(db, addr, email));
    AtMostOne(GrantsOf(db, email));
  }

  /** The same, row by row. */
  lemma SameAddressSameRow(cfg: Config, addr: string -> string, states: seq<State>, acts: seq<Action>, i: nat)
    requires Run(cfg, addr, states, acts) && i < |states|
    ensures var db := states[i].db;
      && (forall r, t :: r in db.users && t in db.users && db.users[r].email == db.users[t].email ==> r == t)
      && (forall r, t :: r in db.users && t in db.users && db.users[r].uid.Some? && db.users[r].uid == db.users[t].uid
            ==> r == t)
      && (forall m, n :: m in db.members && n in db.members && m.0 == n.0 ==> m == n)
      && (forall o, w :: o in db.orgs && w in db.orgs && db.orgs[o].Some? && db.orgs[o] == db.orgs[w] ==> o == w)
  {
    RunKeeps(cfg, addr, states, acts, i);
    var db := states[i].db;
    forall o, w | o in db.orgs && w in db.orgs && db.orgs[o].Some? && db.orgs[o] == db.orgs[w] ensures o == w {
      assert Founded(db, o, addr(db.orgs[o].value)) && Founded(db, w, addr(db.orgs[o].value));
    }
  }

  /** The unique index on slugs is never what stops a provisioning that holds its users row. */
  lemma SlugIsFree(s: State, cfg: Config, addr: string -> string, p: nat)
    requires Inv(s, cfg, addr) && p in s.procs && s.procs[p].pc.CreateOrg? && s.procs[p].tx.row.Some?
    ensures forall o :: o in s.db.orgs ==> s.db.orgs[o] != Some(s.procs[p].token.uid)
  {
    var x := s.procs[p];
    assert ProcInv(s, cfg, addr, x);
    forall o | o in s.db.orgs ensures s.db.orgs[o] != Some(x.token.uid) {
      assert s.db.orgs[o].Some? ==> Founded(s.db, o, addr(s.db.orgs[o].value));
    }
  }

  // ---- what a step may do to identities ---------------------------------------------------------

  /** The token of the request whose transaction this step commits. */
  ghost predicate Commits(s: State, a: Action, token: Token) {
    a.Statement? && a.p in s.procs && s.procs[a.p].pc.Commit? && s.procs[a.p].token == token
  }

  lemma OnlyCommitsWrite(cfg: Config, s: State, a: Action, after: State)
    requires Next(cfg, s, a, after) && !a.Erase?
    requires forall token :: !Commits(s, a, token)
    ensures after.db == s.db
  {
    if a.Statement? { assert !Commits(s, a, s.procs[a.p].token); }
  }

  /** An organisation appears only when a verified token's request commits. */
  lemma OrganisationsNeedVerification(cfg: Config, addr: string -> string, states: seq<State>, acts: seq<Action>,
                                      i: nat, o: nat)
    requires Run(cfg, addr, states, acts) && i < |acts|
    requires o in states[i + 1].db.orgs && o !in states[i].db.orgs
    ensures exists token ::
              Commits(states[i], acts[i], token) && token.verified && states[i + 1].db.orgs[o] == Some(token.uid)
  {
    var s, a := states[i], acts[i];
    RunKeeps(cfg, addr, states, acts, i);
    if forall token :: !Commits(s, a, token) {
      if !a.Erase? { OnlyCommitsWrite(cfg, s, a, states[i + 1]); }
    } else {
      assert ProcInv(s, cfg, addr, s.procs[a.p]);
      assert Commits(s, a, s.procs[a.p].token);
    }
  }

  /** A row that exists changes its uid only in the commit of a verified token for its own address,
      and only while the row is still unlinked or unproven. */
  lemma UidChangesNeedProof(cfg: Config, addr: string -> string, states: seq<State>, acts: seq<Action>, i: nat, r: nat)
    requires Run(cfg, addr, states, acts) && i < |acts|
    requires r in states[i].db.users && r in states[i + 1].db.users
    requires states[i + 1].db.users[r].uid != states[i].db.users[r].uid
    ensures states[i].db.users[r].uid.None? || !states[i].db.users[r].verified
    ensures exists token :: Commits(states[i], acts[i], token) && token.verified
              && token.email == states[i].db.users[r].email && states[i + 1].db.users[r].uid == Some(token.uid)
  {
    var s, a := states[i], acts[i];
    RunKeeps(cfg, addr, states, acts, i);
    if forall token :: !Commits(s, a, token) {
      if !a.Erase? { OnlyCommitsWrite(cfg, s, a, states[i + 1]); }
    } else {
      assert ProcInv(s, cfg, addr, s.procs[a.p]);
      assert Commits(s, a, s.procs[a.p].token);
    }
  }

  /** Such a row is proven: an organisation is founded for no other. */
  lemma LinkedMemberIsProven(cfg: Config, addr: string -> string, states: seq<State>, acts: seq<Action>, i: nat,
                             m: (nat, nat))
    requires Run(cfg, addr, states, acts) && i < |states| && m in states[i].db.members
    requires m.0 in states[i].db.users && states[i].db.users[m.0].uid.Some?
    ensures states[i].db.users[m.0].verified
  {
    RunKeeps(cfg, addr, states, acts, i);
  }

  lemma ProvenUidStays(cfg: Config, addr: string -> string, states: seq<State>, acts: seq<Action>, i: nat, r: nat)
    requires Run(cfg, addr, states, acts) && i < |acts| && r in states[i].db.users && r in states[i + 1].db.users
    requires states[i].db.users[r].uid.Some? && states[i].db.users[r].verified
    ensures states[i + 1].db.users[r].uid == states[i].db.users[r].uid && states[i + 1].db.users[r].verified
  {
    VerifiedStays(cfg, addr, states, acts, i, r);
    if states[i + 1].db.users[r].uid != states[i].db.users[r].uid {
      UidChangesNeedProof(cfg, addr, states, acts, i, r);
    }
  }

  /** Once a row names a uid and belongs to an organisation, its uid is final for as long as the row
      exists. */
  lemma {:induction false} LinkedUidIsFinal(cfg: Config, addr: string -> string, states: seq<State>, acts: seq<Action>,
                                            i: nat, j: nat, m: (nat, nat))
    requires Run(cfg, addr, states, acts) && i <= j < |states|
    requires forall k :: i <= k <= j ==> m.0 in states[k].db.users
    requires m in states[i].db.members && states[i].db.users[m.0].uid.Some?
    ensures states[j].db.users[m.0].uid == states[i].db.users[m.0].uid
    ensures states[j].db.users[m.0].verified
  {
    if i == j {
      LinkedMemberIsProven(cfg, addr, states, acts, i, m);
    } else {
      LinkedUidIsFinal(cfg, addr, states, acts, i, j - 1, m);
      ProvenUidStays(cfg, addr, states, acts, j - 1, m.0);
    }
  }

  lemma VerifiedStays(cfg: Config, addr: string -> string, states: seq<State>, acts: seq<Action>, i: nat, r: nat)
    requires Run(cfg, addr, states, acts) && i < |acts|
    requires r in states[i].db.users && r in states[i + 1].db.users && states[i].db.users[r].verified
    ensures states[i + 1].db.users[r].verified
  {
    var s, a := states[i], acts[i];
    RunKeeps(cfg, addr, states, acts, i);
    if forall token :: !Commits(s, a, token) {
      if !a.Erase? { OnlyCommitsWrite(cfg, s, a, states[i + 1]); }
    } else {
      assert ProcInv(s, cfg, addr, s.procs[a.p]);
    }
  }

  // ---- signup grants ----------------------------------------------------------------------------

  /** This step commits a signup grant for `token`. */
  ghost predicate Pays(s: State, a: Action, token: Token) {
    Commits(s, a, token) && s.procs[a.p].tx.grant != 0
  }

  /** A commit pays the configured amount to a new organisation, against a claim that was still free,
      or it leaves grants alone. */
  lemma PayingCommit(cfg: Config, addr: string -> string, s: State, x: Process, db: Db)
    requires DbInv(s.db, addr) && ProcInv(s, cfg, addr, x) && x.pc.Commit? && db == Applied(s.db, x.token, x.tx)
    ensures if x.tx.grant == 0 then db.grants == s.db.grants && s.db.claims <= db.claims
            else
              && x.token.verified
              && cfg.digest(x.token.email) !in s.db.claims && db.claims == s.db.claims + {cfg.digest(x.token.email)}
              && x.tx.org.Some? && x.tx.org.value !in s.db.grants
              && db.grants == s.db.grants[x.tx.org.value := cfg.amount]
  {
  }

  /** A paying step pays the configured amount to a new organisation and uses up the mailbox's claim;
      every other step leaves grants alone. */
  lemma PayingStep(cfg: Config, addr: string -> string, s: State, a: Action, after: State)
    requires Inv(s, cfg, addr) && Next(cfg, s, a, after)
    ensures forall o :: o in s.db.grants ==> o in after.db.grants && after.db.grants[o] == s.db.grants[o]
    ensures s.db.claims <= after.db.claims
    ensures |after.db.grants| - |s.db.grants| <= |after.db.claims| - |s.db.claims|
    ensures forall o :: o in after.db.grants && o !in s.db.grants ==> after.db.grants[o] == cfg.amount
    ensures forall token :: Pays(s, a, token) ==>
              token.verified && cfg.digest(token.email) !in s.db.claims && cfg.digest(token.email) in after.db.claims
    ensures (forall token :: !Pays(s, a, token)) ==> after.db.grants == s.db.grants
  {
    if a.Statement? && s.procs[a.p].pc.Commit? {
      var x := s.procs[a.p];
      assert ProcInv(s, cfg, addr, x);
      PayingCommit(cfg, addr, s, x, after.db);
      if x.tx.grant == 0 {
        SubsetSize(s.db.claims, after.db.claims);
      } else {
        assert Pays(s, a, x.token);
      }
    } else {
      assert forall token :: !Commits(s, a, token);
      if !a.Erase? { OnlyCommitsWrite(cfg, s, a, after); }
    }
  }

  lemma SubsetSize<T>(x: set<T>, y: set<T>)
    requires x <= y
    ensures |x| <= |y|
  {
    assert y == x + (y - x);
  }

  lemma {:induction false} ClaimsOnlyGrow(cfg: Config, addr: string -> string, states: seq<State>, acts: seq<Action>,
                                          i: nat, j: nat)
    requires Run(cfg, addr, states, acts) && i <= j < |states|
    ensures states[i].db.claims <= states[j].db.claims
    ensures |states[j].db.grants| - |states[i].db.grants| <= |states[j].db.claims| - |states[i].db.claims|
    ensures forall o :: o in states[i].db.grants ==>
        o in states[j].db.grants && states[j].db.grants[o] == states[i].db.grants[o]
    ensures forall o :: o in states[j].db.grants && o !in states[i].db.grants ==> states[j].db.grants[o] == cfg.amount
  {
    if i < j {
      ClaimsOnlyGrow(cfg, addr, states, acts, i, j - 1);
      RunKeeps(cfg, addr, states, acts, j - 1);
      PayingStep(cfg, addr, states[j - 1], acts[j - 1], states[j]);
    }
  }

  lemma PaidMailbox(cfg: Config, addr: string -> string, states: seq<State>, acts: seq<Action>, i: nat, token: Token)
    requires Run(cfg, addr, states, acts) && i < |acts| && Pays(states[i], acts[i], token)
    ensures cfg.digest(token.email) !in states[i].db.claims && cfg.digest(token.email) in states[i + 1].db.claims
  {
    RunKeeps(cfg, addr, states, acts, i);
    PayingStep(cfg, addr, states[i], acts[i], states[i + 1]);
  }

  /** One grant a mailbox, for ever: through any sign-ins, erasures and re-sign-ups, two payments go
      to different mailboxes, and none goes to a mailbox that was already claimed at the start. */
  lemma OneGrantPerMailbox(cfg: Config, addr: string -> string, states: seq<State>, acts: seq<Action>,
                           i: nat, j: nat, first: Token, second: Token)
    requires Run(cfg, addr, states, acts) && i < j < |acts|
    requires Pays(states[i], acts[i], first) && Pays(states[j], acts[j], second)
    ensures cfg.digest(first.email) != cfg.digest(second.email)
    ensures cfg.digest(second.email) !in states[0].db.claims
  {
    PaidMailbox(cfg, addr, states, acts, i, first);
    PaidMailbox(cfg, addr, states, acts, j, second);
    ClaimsOnlyGrow(cfg, addr, states, acts, i + 1, j);
    ClaimsOnlyGrow(cfg, addr, states, acts, 0, j);
  }

  /** What the grants of some organisations add up to. */
  ghost function Sum(grants: map<nat, int>, orgs: set<nat>): int
    requires orgs <= grants.Keys
  {
    if orgs == {} then 0
    else
      var o :| o in orgs;
      grants[o] + Sum(grants, orgs - {o})
  }

  lemma {:induction false} SumOfEqual(grants: map<nat, int>, orgs: set<nat>, amount: int)
    requires orgs <= grants.Keys && forall o :: o in orgs ==> grants[o] == amount
    ensures Sum(grants, orgs) == |orgs| * amount
    decreases orgs
  {
    if orgs != {} {
      var o :| o in orgs && Sum(grants, orgs) == grants[o] + Sum(grants, orgs - {o});
      SumOfEqual(grants, orgs - {o}, amount);
      assert |orgs - {o}| == |orgs| - 1;
      assert |orgs| * amount == (|orgs| - 1) * amount + amount;
    }
  }

  lemma Grown<T>(before: set<T>, after: set<T>)
    requires before <= after
    ensures |after| == |before| + |after - before|
  {
    assert after == before + (after - before);
  }

  /** What a run pays out is at most the configured amount for each mailbox it newly claims. */
  lemma PayoutBounded(cfg: Config, addr: string -> string, states: seq<State>, acts: seq<Action>, j: nat)
    requires Run(cfg, addr, states, acts) && j < |states| && cfg.amount >= 0
    ensures var paid := states[j].db.grants.Keys - states[0].db.grants.Keys;
            Sum(states[j].db.grants, paid) <= |states[j].db.claims - states[0].db.claims| * cfg.amount
  {
    ClaimsOnlyGrow(cfg, addr, states, acts, 0, j);
    var before, after := states[0].db, states[j].db;
    var paid := after.grants.Keys - before.grants.Keys;
    SumOfEqual(after.grants, paid, cfg.amount);
    Grown(before.grants.Keys, after.grants.Keys);
    Grown(before.claims, after.claims);
    Scale(|paid|, |after.claims - before.claims|, cfg.amount);
  }

  lemma Scale(x: nat, y: nat, amount: int)
    requires x <= y && amount >= 0
    ensures x * amount <= y * amount
  {
  }

  // ---- the seeding migration ----------------------------------------------------------------------

  /** The addresses whose organisation already holds a signup grant
      (alembic/versions/0019_signup_claims_and_erasure.py). */
  function GrantedEmails(db: Db): set<string> {
    set m | m in db.members && m.0 in db.users && m.1 in db.grants :: db.users[m.0].email
  }

  function Seeded(db: Db, digest: string -> string): Db {
    db.(claims := db.claims + set e | e in GrantedEmails(db) :: digest(e))
  }

  /** `INSERT ... ON CONFLICT DO NOTHING`, once an address. */
  method SeedExistingGrants(db: Db, digest: string -> string) returns (seeded: Db)
    ensures seeded == Seeded(db, digest)
  {
    var emails := GrantedEmails(db);
    var claims := db.claims;
    while emails != {}
      invariant emails <= GrantedEmails(db)
      invariant claims == db.claims + set e | e in GrantedEmails(db) - emails :: digest(e)
      decreases emails
    {
      var email :| email in emails;
      if digest(email) !in claims {
        claims := claims + {digest(email)};
      }
      emails := emails - {email};
    }
    seeded := db.(claims := claims);
  }

  /** What the seeding claims besides what was claimed: the digest of each address of a member of an organisation that
      holds a grant, and no other. */
  lemma SeedingReaches(db: Db, digest: string -> string, d: string)
    ensures d in Seeded(db, digest).claims <==>
      || d in db.claims
      || exists m :: m in db.members && m.1 in db.grants && m.0 in db.users && d == digest(db.users[m.0].email)
    ensures Seeded(db, digest).users == db.users && Seeded(db, digest).members == db.members
    ensures Seeded(db, digest).orgs == db.orgs && Seeded(db, digest).grants == db.grants
  {
    if m :| m in db.members && m.1 in db.grants && m.0 in db.users && d == digest(db.users[m.0].email) {
      assert db.users[m.0].email in GrantedEmails(db);
    }
  }

  lemma SeedingIsIdempotent(db: Db, digest: string -> string)
    ensures Seeded(Seeded(db, digest), digest) == Seeded(db, digest)
  {
    assert GrantedEmails(Seeded(db, digest)) == GrantedEmails(db);
  }

  /** No run after the migration pays a digest that an earlier grant already reached. */
  lemma DigestsNotPaidAgain(cfg: Config, addr: string -> string, states: seq<State>, acts: seq<Action>,
                            db: Db, j: nat, token: Token)
    requires Run(cfg, addr, states, acts) && j < |acts|
    requires states[0].db == Seeded(db, cfg.digest)
    requires Pays(states[j], acts[j], token)
    ensures forall e :: e in GrantedEmails(db) ==> cfg.digest(e) != cfg.digest(token.email)
  {
    PaidMailbox(cfg, addr, states, acts, j, token);
    ClaimsOnlyGrow(cfg, addr, states, acts, 0, j);
  }
}
