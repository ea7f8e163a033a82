/** When a sign-in gets in (src/meshpipeline/application/account_service.py). A request that from some
    statement on runs undisturbed always ends, and what it ends in is read off the tables it finds. */
module SignIns {
  import opened Wrappers
  import opened Accounts

  // ---- who gets in --------------------------------------------------------------------------------

  /** The uid is on a row. */
  ghost predicate Linked(db: Db, token: Token) { exists r :: r in db.users && db.users[r].uid == Some(token.uid) }

  /** No row has the address. */
  ghost predicate Unknown(db: Db, token: Token) { forall r :: r in db.users ==> db.users[r].email != token.email }

  /** The row belongs to no organisation. */
  ghost predicate Loose(db: Db, r: nat) { forall m :: m in db.members ==> m.0 != r }

  /** A row of the address that nobody has linked, such as the backfill leaves. */
  ghost predicate Backfilled(db: Db, token: Token, r: nat) {
    r in db.users && db.users[r].email == token.email && db.users[r].uid.None?
  }

  /** A row of the address under a uid that never proved it, without an organisation. */
  ghost predicate Squatted(db: Db, token: Token, r: nat) {
    && r in db.users && db.users[r].email == token.email
    && db.users[r].uid.Some? && !db.users[r].verified && Loose(db, r)
  }

  ghost predicate Linkable(db: Db, token: Token) {
    token.verified && exists r :: Backfilled(db, token, r) || Squatted(db, token, r)
  }

  /** The sign-ins that succeed when nothing disturbs them. */
  ghost predicate Admits(cfg: Config, db: Db, token: Token) {
    Linked(db, token) || (Unknown(db, token) && cfg.signupEnabled) || Linkable(db, token)
  }

  /** What a request still resolving its user needs of the tables, if they stay as they are from here. A
      guarded update succeeds on the row it was read from, and one that attaches a uid also when its own
      duplicate has been there; one that replaces a uid does not. */
  ghost predicate Accepts(cfg: Config, db: Db, token: Token, pc: Pc) {
    match pc
    case ReadUid => Admits(cfg, db, token)
    case ReadEmail => Admits(cfg, db, token)
    case Insert => Linked(db, token) || Unknown(db, token) || Linkable(db, token)
    case Conflicted => Linked(db, token) || Linkable(db, token)
    case ConflictedEmail => Linked(db, token) || Linkable(db, token)
    case Link(r, seen) =>
      || seen.uid == Some(token.uid)
      || (&& token.verified && r in db.users
          && (if seen.uid.Some?
              then !seen.verified && db.users[r].uid == seen.uid && !db.users[r].verified && Loose(db, r)
              else db.users[r].uid == None || db.users[r].uid == Some(token.uid)))
    case Repoint(r, from) => r in db.users && db.users[r].uid == Some(from) && !db.users[r].verified
    case Attach(r) => r in db.users && (db.users[r].uid == None || db.users[r].uid == Some(token.uid))
    case AttachLost(r) => r in db.users && db.users[r].uid == Some(token.uid)
    case _ => true
  }

  // ---- what a sign-in leaves ------------------------------------------------------------------------

  ghost predicate Provisions(cfg: Config, db: Db, token: Token, r: nat) {
    token.verified && cfg.signupEnabled && Loose(db, r)
  }

  predicate Pays(cfg: Config, db: Db, token: Token) {
    cfg.amount > 0 && !cfg.withheld(token.email) && cfg.digest(token.email) !in db.claims
  }

  predicate Proven(db: Db, token: Token, r: nat) { token.verified || (r in db.users && db.users[r].verified) }

  /** The tables after a sign-in on row `r`: the uid is on the row, the address is proven if it ever was, and a
      proven row without an organisation is given organisation `o`, with the signup grant if the mailbox has
      never had one. */
  ghost function SignedIn(cfg: Config, db: Db, token: Token, r: nat, o: nat): Db {
    var users := db.users[r := User(token.email, Some(token.uid), Proven(db, token, r))];
    if !Provisions(cfg, db, token, r) then db.(users := users)
    else if !Pays(cfg, db, token) then
      db.(users := users, orgs := db.orgs[o := Some(token.uid)], members := db.members + {(r, o)})
    else
      Db(users, db.orgs[o := Some(token.uid)], db.members + {(r, o)}, db.grants[o := cfg.amount],
         db.claims + {cfg.digest(token.email)})
  }

  /** The row a sign-in ends up on: the address's own, or a new one if it has none. */
  ghost predicate Home(s: State, token: Token, r: nat) {
    (r in s.db.users && s.db.users[r].email == token.email) || (r == s.nextUser && Unknown(s.db, token))
  }

  // ---- where an undisturbed request stands ------------------------------------------------------------

  /** Nobody else has written anything. */
  ghost predicate Quiet(s: State, p: nat) { forall q :: q in s.procs && q != p ==> s.procs[q].tx == EMPTY }

  predicate StillOwn(db: Db, x: Process) {
    x.pc.Link? && x.pc.row in db.users && x.pc.seen.uid == Some(x.token.uid) ==> db.users[x.pc.row].uid == x.pc.seen.uid
  }

  /** Request `p` has not resolved its user yet, any row it has found is still there, under its own uid if that
      is how it read it, and nobody else has written anything. */
  ghost predicate Ready(s: State, cfg: Config, addr: string -> string, p: nat) {
    && Inv(s, cfg, addr) && p in s.procs && Resolving(s.procs[p].pc)
    && (PcRow(s.procs[p].pc).Some? ==> PcRow(s.procs[p].pc).value in s.db.users)
    && StillOwn(s.db, s.procs[p])
    && Quiet(s, p)
  }

  /** What the request holds of row `r` once it is resolved. */
  function Mine(s: State, token: Token, r: nat, proven: bool): Tx {
    EMPTY.(row := Some(r), image := User(token.email, Some(token.uid), proven), inserted := r !in s.db.users)
  }

  /** It holds the row with the address `proven`, or nothing because the row says so already. */
  ghost predicate Holds(s: State, token: Token, r: nat, proven: bool, tx: Tx) {
    || tx == Mine(s, token, r, proven)
    || (tx == EMPTY && r in s.db.users && s.db.users[r] == User(token.email, Some(token.uid), proven))
  }

  function Founding(s: State, token: Token, r: nat): Tx { Mine(s, token, r, true).(org := Some(s.nextOrg)) }

  function Granted(cfg: Config, s: State, token: Token, r: nat): Tx {
    Founding(s, token, r).(member := true, claim := Some(cfg.digest(token.email)))
  }

  function Whole(cfg: Config, s: State, token: Token, r: nat): Tx {
    if Pays(cfg, s.db, token) then Granted(cfg, s, token, r).(grant := cfg.amount)
    else Founding(s, token, r).(member := true)
  }

  ghost predicate Stage(cfg: Config, s: State, token: Token, pc: Pc, tx: Tx)
    requires !Resolving(pc)
  {
    var r := PcRow(pc).value;
    var proven := Proven(s.db, token, r);
    && Home(s, token, r)
    && match pc
       case LoginVerify(_) => token.verified && Holds(s, token, r, r in s.db.users && s.db.users[r].verified, tx)
       case LoginStamp(_) => Holds(s, token, r, proven, tx)
       case ReadMembership(_) => tx == Mine(s, token, r, proven)
       case Lock(_) => tx == Mine(s, token, r, true) && Provisions(cfg, s.db, token, r)
       case ReReadMembership(_) => tx == Mine(s, token, r, true) && Provisions(cfg, s.db, token, r)
       case CreateOrg(_) => tx == Mine(s, token, r, true) && Provisions(cfg, s.db, token, r)
       case CreateMembership(_) => tx == Founding(s, token, r) && Provisions(cfg, s.db, token, r)
       case Claim(_) => tx == Founding(s, token, r).(member := true) && Provisions(cfg, s.db, token, r)
       case Grant(_) =>
         tx == Granted(cfg, s, token, r) && Provisions(cfg, s.db, token, r) && Pays(cfg, s.db, token)
       case Commit(_) =>
         tx == if Provisions(cfg, s.db, token, r) then Whole(cfg, s, token, r) else Mine(s, token, r, proven)
       case _ => false
  }

  /** `t` is a state that `p`, undisturbed since `s`, may have reached. */
  ghost predicate At(cfg: Config, s: State, p: nat, t: State)
    requires p in s.procs
  {
    && p in t.procs && t.db == s.db && t.procs == s.procs[p := t.procs[p]] && t.procs[p].token == s.procs[p].token
    && (t.procs[p].tx.org.None? ==> t.nextOrg == s.nextOrg)
    && if Resolving(t.procs[p].pc) then
         && t.procs[p].tx == EMPTY && t.nextUser == s.nextUser
         && PcSound(s, t.procs[p]) && StillOwn(s.db, t.procs[p])
         && (Accepts(cfg, s.db, s.procs[p].token, t.procs[p].pc)
             <==> Accepts(cfg, s.db, s.procs[p].token, s.procs[p].pc))
       else
         && Accepts(cfg, s.db, s.procs[p].token, s.procs[p].pc)
         && Stage(cfg, s, s.procs[p].token, t.procs[p].pc, t.procs[p].tx)
  }

  /** The row a resolving request has found is the address's. */
  ghost predicate PcSound(s: State, x: Process) {
    && (PcRow(x.pc).Some? ==> PcRow(x.pc).value in s.db.users && s.db.users[PcRow(x.pc).value].email == x.token.email)
    && (x.pc.Link? ==> x.pc.seen.email == x.token.email)
    && (x.pc.Repoint? || x.pc.Attach? || x.pc.AttachLost? ==> x.token.verified)
  }

  /** `t` is what is left when `p` has ended, having committed or not. */
  ghost predicate Ends(cfg: Config, s: State, p: nat, t: State, commits: bool)
    requires p in s.procs
  {
    var token := s.procs[p].token;
    && t.procs == s.procs - {p}
    && (Accepts(cfg, s.db, token, s.procs[p].pc) <==> commits)
    && if commits then exists r :: Home(s, token, r) && t.db == SignedIn(cfg, s.db, token, r, s.nextOrg)
       else t.db == s.db
  }

  function Rank(pc: Pc): nat {
    match pc
    case ReadUid => 17
    case ReadEmail => 16
    case Insert => 15
    case Conflicted => 14
    case ConflictedEmail => 13
    case Link(_, _) => 12
    case Repoint(_, _) => 11
    case Attach(_) => 11
    case AttachLost(_) => 10
    case LoginVerify(_) => 9
    case LoginStamp(_) => 8
    case ReadMembership(_) => 7
    case Lock(_) => 6
    case ReReadMembership(_) => 5
    case CreateOrg(_) => 4
    case CreateMembership(_) => 3
    case Claim(_) => 2
    case Grant(_) => 1
    case Commit(_) => 0
  }

  /** From `t` the request goes on towards its commit, or ends, by a commit or by a refusal. */
  ghost predicate Moves(cfg: Config, s: State, p: nat, t: State, after: State)
    requires p in s.procs && p in t.procs
  {
    if p in after.procs then At(cfg, s, p, after) && Rank(after.procs[p].pc) < Rank(t.procs[p].pc)
    else Ends(cfg, s, p, after, t.procs[p].pc.Commit?)
  }

  // ---- what the tables say ----------------------------------------------------------------------------

  lemma OnlyHome(s: State, cfg: Config, addr: string -> string, p: nat, r: nat)
    requires Ready(s, cfg, addr, p) && r in s.db.users
    requires s.db.users[r].uid == Some(s.procs[p].token.uid) || s.db.users[r].email == s.procs[p].token.email
    ensures s.db.users[r].email == s.procs[p].token.email && Home(s, s.procs[p].token, r)
    ensures forall t :: t in s.db.users && s.db.users[t].uid == Some(s.procs[p].token.uid) ==> t == r
    ensures forall t :: t in s.db.users && s.db.users[t].email == s.procs[p].token.email ==> t == r
  {
    assert ProcInv(s, cfg, addr, s.procs[p]);
  }

  /** On the address's row, being linkable is the condition of the branch that links it. */
  lemma LinkableHere(s: State, cfg: Config, addr: string -> string, p: nat, r: nat)
    requires Ready(s, cfg, addr, p) && r in s.db.users && s.db.users[r].email == s.procs[p].token.email
    ensures Linkable(s.db, s.procs[p].token) <==>
      s.procs[p].token.verified && (s.db.users[r].uid.None? || (!s.db.users[r].verified && Loose(s.db, r)))
    ensures Linked(s.db, s.procs[p].token) <==> s.db.users[r].uid == Some(s.procs[p].token.uid)
  {
    var token := s.procs[p].token;
    OnlyHome(s, cfg, addr, p, r);
    if token.verified && (s.db.users[r].uid.None? || (!s.db.users[r].verified && Loose(s.db, r))) {
      assert Backfilled(s.db, token, r) || Squatted(s.db, token, r);
    }
    if Linkable(s.db, token) {
      var q :| Backfilled(s.db, token, q) || Squatted(s.db, token, q);
      assert q == r;
    }
  }

  lemma NobodyLinkable(db: Db, token: Token)
    requires Unknown(db, token)
    ensures !Linkable(db, token)
  {
  }

  lemma UnknownIsUnlinked(s: State, cfg: Config, addr: string -> string, p: nat)
    requires Ready(s, cfg, addr, p) && Unknown(s.db, s.procs[p].token)
    ensures !Linked(s.db, s.procs[p].token)
  {
    assert ProcInv(s, cfg, addr, s.procs[p]);
  }

  /** An organisation is found for the address exactly when its row belongs to one. */
  lemma MembershipFound(s: State, cfg: Config, addr: string -> string, p: nat, r: nat, found: Option<nat>)
    requires Ready(s, cfg, addr, p) && Home(s, s.procs[p].token, r)
    requires OrgForEmail(s.db, s.procs[p].token.email, found)
    ensures found.None? <==> Loose(s.db, r)
  {
    if r in s.db.users { OnlyHome(s, cfg, addr, p, r); }
  }

  lemma Reenters(cfg: Config, s: State, p: nat, t: State, r: nat, after: State)
    requires p in s.procs && At(cfg, s, p, t) && Resolving(t.procs[p].pc)
    requires Accepts(cfg, s.db, s.procs[p].token, s.procs[p].pc) && Home(s, s.procs[p].token, r)
    requires r in s.db.users && s.db.users[r].uid == Some(s.procs[p].token.uid)
    requires s.db.users[r].email == s.procs[p].token.email
    requires after == Goto(t, p, Resolved(s.procs[p].token, r))
    ensures Moves(cfg, s, p, t, after)
  {
  }

  // ---- every statement moves it on ----------------------------------------------------------------------

  lemma ReadUidMoves(cfg: Config, addr: string -> string, s: State, p: nat, t: State, found: Option<nat>, after: State)
    requires Ready(s, cfg, addr, p) && At(cfg, s, p, t) && FindStep(t, p, found, after, cfg)
    requires t.procs[p].pc.ReadUid? || t.procs[p].pc.Conflicted?
    ensures Moves(cfg, s, p, t, after)
  {
    if found.Some? {
      assert Linked(s.db, s.procs[p].token);
      OnlyHome(s, cfg, addr, p, found.value);
      Reenters(cfg, s, p, t, found.value, after);
    }
  }

  lemma ReadEmailFinds(cfg: Config, addr: string -> string, s: State, p: nat, t: State, r: nat, after: State)
    requires Ready(s, cfg, addr, p) && At(cfg, s, p, t) && (t.procs[p].pc.ReadEmail? || t.procs[p].pc.ConflictedEmail?)
    requires r in s.db.users && s.db.users[r].email == s.procs[p].token.email
    requires after == Goto(t, p, Link(r, s.db.users[r]))
    ensures Moves(cfg, s, p, t, after)
  {
    LinkableHere(s, cfg, addr, p, r);
  }

  lemma ReadEmailMisses(cfg: Config, addr: string -> string, s: State, p: nat, t: State, after: State)
    requires Ready(s, cfg, addr, p) && At(cfg, s, p, t) && Unknown(s.db, s.procs[p].token)
    requires t.procs[p].pc.ReadEmail? || t.procs[p].pc.ConflictedEmail?
    requires after == if t.procs[p].pc.ReadEmail? && cfg.signupEnabled then Goto(t, p, Insert) else Refused(t, p)
    ensures Moves(cfg, s, p, t, after)
  {
    NobodyLinkable(s.db, s.procs[p].token);
    UnknownIsUnlinked(s, cfg, addr, p);
  }

  lemma ReadEmailMoves(cfg: Config, addr: string -> string, s: State, p: nat, t: State, found: Option<nat>,
                       after: State)
    requires Ready(s, cfg, addr, p) && At(cfg, s, p, t) && FindStep(t, p, found, after, cfg)
    requires t.procs[p].pc.ReadEmail? || t.procs[p].pc.ConflictedEmail?
    ensures Moves(cfg, s, p, t, after)
  {
    if found.Some? {
      ReadEmailFinds(cfg, addr, s, p, t, found.value, after);
    } else {
      ReadEmailMisses(cfg, addr, s, p, t, after);
    }
  }

  lemma InsertConflicts(cfg: Config, addr: string -> string, s: State, p: nat, t: State, r: nat, after: State)
    requires Ready(s, cfg, addr, p) && At(cfg, s, p, t) && t.procs[p].pc.Insert?
    requires after == GotoWith(t, p, Conflicted, EMPTY)
    requires r in s.db.users
    requires s.db.users[r].email == s.procs[p].token.email || s.db.users[r].uid == Some(s.procs[p].token.uid)
    ensures Moves(cfg, s, p, t, after)
  {
    OnlyHome(s, cfg, addr, p, r);
    assert !Unknown(s.db, s.procs[p].token);
  }

  lemma InsertLands(cfg: Config, s: State, p: nat, t: State, tx: Tx, after: State)
    requires p in s.procs && Quiet(s, p) && At(cfg, s, p, t) && t.procs[p].pc.Insert? && Unknown(s.db, s.procs[p].token)
    requires tx == Mine(s, s.procs[p].token, s.nextUser, false) && s.nextUser !in s.db.users
    requires after == GotoWith(t, p, Resolved(s.procs[p].token, s.nextUser), tx).(nextUser := s.nextUser + 1)
    ensures Moves(cfg, s, p, t, after)
  {
  }

  lemma InsertMoves(cfg: Config, addr: string -> string, s: State, p: nat, t: State, after: State)
    requires Ready(s, cfg, addr, p) && At(cfg, s, p, t) && t.procs[p].pc.Insert? && InsertStep(t, p, after)
    ensures Moves(cfg, s, p, t, after)
  {
    var token := s.procs[p].token;
    if r :| r in s.db.users && (s.db.users[r].email == token.email || s.db.users[r].uid == Some(token.uid)) {
      InsertConflicts(cfg, addr, s, p, t, r, after);
    } else {
      assert s.nextUser !in s.db.users;
      InsertLands(cfg, s, p, t, Mine(s, token, s.nextUser, false), after);
    }
  }

  /** The row read is the token's own, a race with its duplicate. */
  lemma LinkOwnMoves(cfg: Config, s: State, p: nat, t: State, found: Option<nat>, after: State)
    requires p in s.procs && Quiet(s, p) && At(cfg, s, p, t) && t.procs[p].pc.Link? && LinkStep(t, p, found, after)
    requires t.procs[p].pc.seen.uid == Some(s.procs[p].token.uid)
    ensures Moves(cfg, s, p, t, after)
  {
  }

  lemma LinkOtherGoes(cfg: Config, s: State, p: nat, t: State, found: Option<nat>, after: State)
    requires p in s.procs && At(cfg, s, p, t) && t.procs[p].pc.Link? && LinkStep(t, p, found, after)
    requires t.procs[p].pc.seen.uid.Some? && t.procs[p].pc.seen.uid != Some(s.procs[p].token.uid)
    requires s.procs[p].token.verified && !t.procs[p].pc.seen.verified ==>
        (found.None? <==> Loose(s.db, t.procs[p].pc.row))
    ensures Moves(cfg, s, p, t, after)
  {
  }

  lemma LinkOtherMoves(cfg: Config, addr: string -> string, s: State, p: nat, t: State, found: Option<nat>,
                       after: State)
    requires Ready(s, cfg, addr, p) && At(cfg, s, p, t) && t.procs[p].pc.Link? && LinkStep(t, p, found, after)
    requires t.procs[p].pc.seen.uid.Some? && t.procs[p].pc.seen.uid != Some(s.procs[p].token.uid)
    ensures Moves(cfg, s, p, t, after)
  {
    var token, r, seen := s.procs[p].token, t.procs[p].pc.row, t.procs[p].pc.seen;
    OnlyHome(s, cfg, addr, p, r);
    if token.verified && !seen.verified { MembershipFound(s, cfg, addr, p, r, found); }
    LinkOtherGoes(cfg, s, p, t, found, after);
  }

  lemma LinkFreeMoves(cfg: Config, s: State, p: nat, t: State, found: Option<nat>, after: State)
    requires p in s.procs && Quiet(s, p) && At(cfg, s, p, t) && t.procs[p].pc.Link? && LinkStep(t, p, found, after)
    requires t.procs[p].pc.seen.uid.None?
    ensures Moves(cfg, s, p, t, after)
  {
  }

  /** A guarded update of the address's row finds the uid on no other. */
  lemma TakeOverLands(cfg: Config, addr: string -> string, s: State, p: nat, t: State, after: State)
    requires Ready(s, cfg, addr, p) && At(cfg, s, p, t) && (t.procs[p].pc.Repoint? || t.procs[p].pc.Attach?)
    requires t.procs[p].pc.row in s.db.users && TakeOver(t, p, t.procs[p].pc.row, after)
    ensures var (token, r) := (s.procs[p].token, t.procs[p].pc.row);
      && Home(s, token, r) && s.db.users[r].email == token.email
      && after == GotoWith(t, p, Resolved(token, r), Mine(s, token, r, s.db.users[r].verified))
  {
    OnlyHome(s, cfg, addr, p, t.procs[p].pc.row);
  }

  lemma TakenMoves(cfg: Config, s: State, p: nat, t: State, r: nat, after: State)
    requires p in s.procs && At(cfg, s, p, t) && (t.procs[p].pc.Repoint? || t.procs[p].pc.Attach?)
    requires Accepts(cfg, s.db, s.procs[p].token, s.procs[p].pc) && Home(s, s.procs[p].token, r) && r in s.db.users
    requires after == GotoWith(t, p, Resolved(s.procs[p].token, r),
        Mine(s, s.procs[p].token, r, s.db.users[r].verified))
    ensures Moves(cfg, s, p, t, after)
  {
  }

  lemma RepointMoves(cfg: Config, addr: string -> string, s: State, p: nat, t: State, found: Option<nat>, after: State)
    requires Ready(s, cfg, addr, p) && At(cfg, s, p, t) && t.procs[p].pc.Repoint? && LinkStep(t, p, found, after)
    ensures Moves(cfg, s, p, t, after)
  {
    if Accepts(cfg, s.db, s.procs[p].token, t.procs[p].pc) {
      TakeOverLands(cfg, addr, s, p, t, after);
      TakenMoves(cfg, s, p, t, t.procs[p].pc.row, after);
    }
  }

  /** The row has been linked since: by its own duplicate, or by somebody else. */
  lemma AttachMisses(cfg: Config, s: State, p: nat, t: State, after: State)
    requires p in s.procs && At(cfg, s, p, t) && t.procs[p].pc.Attach? && s.db.users[t.procs[p].pc.row].uid.Some?
    requires after == Goto(t, p, AttachLost(t.procs[p].pc.row))
    ensures Moves(cfg, s, p, t, after)
  {
  }

  lemma AttachMoves(cfg: Config, addr: string -> string, s: State, p: nat, t: State, found: Option<nat>, after: State)
    requires Ready(s, cfg, addr, p) && At(cfg, s, p, t) && t.procs[p].pc.Attach? && LinkStep(t, p, found, after)
    ensures Moves(cfg, s, p, t, after)
  {
    if s.db.users[t.procs[p].pc.row].uid.None? {
      TakeOverLands(cfg, addr, s, p, t, after);
      TakenMoves(cfg, s, p, t, t.procs[p].pc.row, after);
    } else {
      AttachMisses(cfg, s, p, t, after);
    }
  }

  lemma AttachLostMoves(cfg: Config, addr: string -> string, s: State, p: nat, t: State, found: Option<nat>,
                        after: State)
    requires Ready(s, cfg, addr, p) && At(cfg, s, p, t) && t.procs[p].pc.AttachLost? && LinkStep(t, p, found, after)
    ensures Moves(cfg, s, p, t, after)
  {
    OnlyHome(s, cfg, addr, p, t.procs[p].pc.row);
  }

  lemma VerifyMoves(cfg: Config, s: State, p: nat, t: State, found: Option<nat>, after: State)
    requires p in s.procs && Quiet(s, p) && At(cfg, s, p, t) && LoginStep(t, p, found, after, cfg)
    requires t.procs[p].pc.LoginVerify?
    ensures Moves(cfg, s, p, t, after)
  {
  }

  lemma StampMoves(cfg: Config, s: State, p: nat, t: State, found: Option<nat>, after: State)
    requires p in s.procs && Quiet(s, p) && At(cfg, s, p, t) && LoginStep(t, p, found, after, cfg)
    requires t.procs[p].pc.LoginStamp?
    ensures Moves(cfg, s, p, t, after)
  {
  }

  lemma MembershipMoves(cfg: Config, addr: string -> string, s: State, p: nat, t: State, found: Option<nat>,
                        after: State)
    requires Ready(s, cfg, addr, p) && At(cfg, s, p, t) && LoginStep(t, p, found, after, cfg)
    requires t.procs[p].pc.ReadMembership? || t.procs[p].pc.ReReadMembership?
    ensures Moves(cfg, s, p, t, after)
  {
    MembershipFound(s, cfg, addr, p, t.procs[p].pc.row, found);
  }

  lemma LockMoves(cfg: Config, s: State, p: nat, t: State, found: Option<nat>, after: State)
    requires p in s.procs && Quiet(s, p) && At(cfg, s, p, t) && LoginStep(t, p, found, after, cfg)
    requires t.procs[p].pc.Lock?
    ensures Moves(cfg, s, p, t, after)
  {
  }

  lemma SlugMeansMember(cfg: Config, addr: string -> string, s: State, p: nat, r: nat, o: nat)
    requires Ready(s, cfg, addr, p) && Home(s, s.procs[p].token, r)
    requires o in s.db.orgs && s.db.orgs[o] == Some(s.procs[p].token.uid)
    ensures !Loose(s.db, r)
  {
    var token := s.procs[p].token;
    assert ProcInv(s, cfg, addr, s.procs[p]);
    assert Founded(s.db, o, token.email);
    var m :| m in s.db.members && m.1 == o && m.0 in s.db.users && s.db.users[m.0].email == token.email;
    OnlyHome(s, cfg, addr, p, m.0);
  }

  lemma NoSlugTaken(cfg: Config, addr: string -> string, s: State, p: nat, r: nat)
    requires Ready(s, cfg, addr, p) && Home(s, s.procs[p].token, r) && Loose(s.db, r)
    ensures forall o :: o in s.db.orgs ==> s.db.orgs[o] != Some(s.procs[p].token.uid)
  {
    if o :| o in s.db.orgs && s.db.orgs[o] == Some(s.procs[p].token.uid) {
      SlugMeansMember(cfg, addr, s, p, r, o);
    }
  }

  lemma CreateOrgGoes(cfg: Config, s: State, p: nat, t: State, after: State)
    requires p in s.procs && Quiet(s, p) && At(cfg, s, p, t) && ProvisionStep(t, p, after, cfg)
    requires t.procs[p].pc.CreateOrg?
    requires forall o :: o in s.db.orgs ==> s.db.orgs[o] != Some(s.procs[p].token.uid)
    ensures Moves(cfg, s, p, t, after)
  {
  }

  lemma CreateOrgMoves(cfg: Config, addr: string -> string, s: State, p: nat, t: State, after: State)
    requires Ready(s, cfg, addr, p) && At(cfg, s, p, t) && ProvisionStep(t, p, after, cfg) && t.procs[p].pc.CreateOrg?
    ensures Moves(cfg, s, p, t, after)
  {
    NoSlugTaken(cfg, addr, s, p, t.procs[p].pc.row);
    CreateOrgGoes(cfg, s, p, t, after);
  }

  lemma FoundingMoves(cfg: Config, s: State, p: nat, t: State, after: State)
    requires p in s.procs && Quiet(s, p) && At(cfg, s, p, t) && ProvisionStep(t, p, after, cfg)
    requires t.procs[p].pc.CreateMembership? || t.procs[p].pc.Grant?
    ensures Moves(cfg, s, p, t, after)
  {
  }

  lemma ClaimMoves(cfg: Config, s: State, p: nat, t: State, after: State)
    requires p in s.procs && Quiet(s, p) && At(cfg, s, p, t) && ProvisionStep(t, p, after, cfg) && t.procs[p].pc.Claim?
    ensures Moves(cfg, s, p, t, after)
  {
  }

  lemma CommitMoves(cfg: Config, addr: string -> string, s: State, p: nat, t: State, after: State)
    requires Ready(s, cfg, addr, p) && At(cfg, s, p, t) && ProvisionStep(t, p, after, cfg) && t.procs[p].pc.Commit?
    ensures Moves(cfg, s, p, t, after)
  {
    var token, r := s.procs[p].token, t.procs[p].pc.row;
    assert after.db == SignedIn(cfg, s.db, token, r, s.nextOrg);
  }

  lemma LinkMoves(cfg: Config, addr: string -> string, s: State, p: nat, t: State, found: Option<nat>, after: State)
    requires Ready(s, cfg, addr, p) && At(cfg, s, p, t) && t.procs[p].pc.Link? && LinkStep(t, p, found, after)
    ensures Moves(cfg, s, p, t, after)
  {
    if t.procs[p].pc.seen.uid.None? {
      LinkFreeMoves(cfg, s, p, t, found, after);
    } else if t.procs[p].pc.seen.uid == Some(s.procs[p].token.uid) {
      LinkOwnMoves(cfg, s, p, t, found, after);
    } else {
      LinkOtherMoves(cfg, addr, s, p, t, found, after);
    }
  }

  lemma ResolvingMoves(cfg: Config, addr: string -> string, s: State, p: nat, t: State, found: Option<nat>,
                       after: State)
    requires Ready(s, cfg, addr, p) && At(cfg, s, p, t) && Next(cfg, t, Statement(p, found), after)
    requires Resolving(t.procs[p].pc)
    ensures Moves(cfg, s, p, t, after)
  {
    match t.procs[p].pc
    case ReadUid => ReadUidMoves(cfg, addr, s, p, t, found, after);
    case Conflicted => ReadUidMoves(cfg, addr, s, p, t, found, after);
    case ReadEmail => ReadEmailMoves(cfg, addr, s, p, t, found, after);
    case ConflictedEmail => ReadEmailMoves(cfg, addr, s, p, t, found, after);
    case Insert => InsertMoves(cfg, addr, s, p, t, after);
    case Link(_, _) => LinkMoves(cfg, addr, s, p, t, found, after);
    case Repoint(_, _) => RepointMoves(cfg, addr, s, p, t, found, after);
    case Attach(_) => AttachMoves(cfg, addr, s, p, t, found, after);
    case AttachLost(_) => AttachLostMoves(cfg, addr, s, p, t, found, after);
  }

  lemma StatementMoves(cfg: Config, addr: string -> string, s: State, p: nat, t: State, found: Option<nat>,
                       after: State)
    requires Ready(s, cfg, addr, p) && At(cfg, s, p, t) && Next(cfg, t, Statement(p, found), after)
    ensures Moves(cfg, s, p, t, after)
  {
    if Resolving(t.procs[p].pc) {
      ResolvingMoves(cfg, addr, s, p, t, found, after);
    } else {
      match t.procs[p].pc
      case LoginVerify(_) => VerifyMoves(cfg, s, p, t, found, after);
      case LoginStamp(_) => StampMoves(cfg, s, p, t, found, after);
      case Lock(_) => LockMoves(cfg, s, p, t, found, after);
      case ReadMembership(_) => MembershipMoves(cfg, addr, s, p, t, found, after);
      case ReReadMembership(_) => MembershipMoves(cfg, addr, s, p, t, found, after);
      case CreateOrg(_) => CreateOrgMoves(cfg, addr, s, p, t, after);
      case CreateMembership(_) => FoundingMoves(cfg, s, p, t, after);
      case Claim(_) => ClaimMoves(cfg, s, p, t, after);
      case Grant(_) => FoundingMoves(cfg, s, p, t, after);
      case Commit(_) => CommitMoves(cfg, addr, s, p, t, after);
    }
  }

  // ---- and there always is one --------------------------------------------------------------------------

  ghost predicate CanMove(cfg: Config, t: State, p: nat) {
    exists found, after :: Next(cfg, t, Statement(p, found), after)
  }

  lemma UidAnswer(db: Db, uid: string) returns (found: Option<nat>)
    ensures ByUid(db, uid, found)
  {
    found := None;
    if r :| r in db.users && db.users[r].uid == Some(uid) { found := Some(r); }
  }

  lemma EmailAnswer(db: Db, email: string) returns (found: Option<nat>)
    ensures ByEmail(db, email, found)
  {
    found := None;
    if r :| r in db.users && db.users[r].email == email { found := Some(r); }
  }

  lemma OrgAnswer(db: Db, email: string) returns (found: Option<nat>)
    ensures OrgForEmail(db, email, found)
  {
    found := None;
    if m :| m in db.members && m.0 in db.users && db.users[m.0].email == email { found := Some(m.1); }
  }

  lemma FindCanMove(cfg: Config, s: State, p: nat, t: State)
    requires p in s.procs && Quiet(s, p) && At(cfg, s, p, t)
    requires t.procs[p].pc.ReadUid? || t.procs[p].pc.Conflicted? || t.procs[p].pc.ReadEmail?
        || t.procs[p].pc.ConflictedEmail?
    ensures CanMove(cfg, t, p)
  {
    var token := t.procs[p].token;
    var u := UidAnswer(t.db, token.uid);
    var e := EmailAnswer(t.db, token.email);
    match t.procs[p].pc
    case ReadUid =>
      assert Next(cfg, t, Statement(p, u), Goto(t, p, if u.Some? then Resolved(token, u.value) else ReadEmail));
    case Conflicted =>
      assert Next(cfg, t, Statement(p, u), Goto(t, p, if u.Some? then Resolved(token, u.value) else ConflictedEmail));
    case ReadEmail =>
      var missed := if cfg.signupEnabled then Goto(t, p, Insert) else Refused(t, p);
      assert Next(cfg, t, Statement(p, e), if e.Some? then Goto(t, p, Link(e.value, t.db.users[e.value])) else missed);
    case ConflictedEmail =>
      assert Next(cfg, t, Statement(p, e),
          if e.Some? then Goto(t, p, Link(e.value, t.db.users[e.value])) else Refused(t, p));
  }

  lemma InsertCanMove(cfg: Config, s: State, p: nat, t: State)
    requires p in s.procs && Quiet(s, p) && At(cfg, s, p, t) && t.procs[p].pc.Insert?
    ensures CanMove(cfg, t, p)
  {
    var token := t.procs[p].token;
    if exists r :: r in t.db.users && (t.db.users[r].email == token.email || t.db.users[r].uid == Some(token.uid)) {
      assert Next(cfg, t, Statement(p, None), GotoWith(t, p, Conflicted, EMPTY));
    } else {
      var tx := EMPTY.(row := Some(t.nextUser), image := User(token.email, Some(token.uid), false), inserted := true);
      assert Next(cfg, t, Statement(p, None),
          GotoWith(t, p, Resolved(token, t.nextUser), tx).(nextUser := t.nextUser + 1));
    }
  }

  function TakenOver(t: State, p: nat, r: nat): State
    requires p in t.procs && r in t.db.users
  {
    var x := t.procs[p];
    GotoWith(t, p, Resolved(x.token, r), x.tx.(row := Some(r), image := t.db.users[r].(uid := Some(x.token.uid))))
  }

  lemma TakeOverCanMove(cfg: Config, s: State, p: nat, t: State)
    requires p in s.procs && Quiet(s, p) && At(cfg, s, p, t) && (t.procs[p].pc.Repoint? || t.procs[p].pc.Attach?)
    ensures CanMove(cfg, t, p)
  {
    var x, r := t.procs[p], t.procs[p].pc.row;
    var taken := if UidFree(t, p, r, x.token.uid) then TakenOver(t, p, r) else Refused(t, p);
    var missed := if x.pc.Repoint? then Refused(t, p) else Goto(t, p, AttachLost(r));
    assert TakeOver(t, p, r, taken);
    assert Next(cfg, t, Statement(p, None), taken) || Next(cfg, t, Statement(p, None), missed);
  }

  lemma LinkCanMove(cfg: Config, s: State, p: nat, t: State)
    requires p in s.procs && Quiet(s, p) && At(cfg, s, p, t) && t.procs[p].pc.Link?
    ensures CanMove(cfg, t, p)
  {
    var x, seen, r := t.procs[p], t.procs[p].pc.seen, t.procs[p].pc.row;
    var o := OrgAnswer(t.db, seen.email);
    if seen.uid == Some(x.token.uid) {
      assert Next(cfg, t, Statement(p, o), Goto(t, p, Resolved(x.token, r)));
    } else if seen.uid.Some? && x.token.verified && !seen.verified && o.None? {
      assert Next(cfg, t, Statement(p, o), Goto(t, p, Repoint(r, seen.uid.value)));
    } else if seen.uid.None? && x.token.verified {
      assert Next(cfg, t, Statement(p, o), Goto(t, p, Attach(r)));
    } else {
      assert Next(cfg, t, Statement(p, o), Refused(t, p));
    }
  }

  lemma AttachLostCanMove(cfg: Config, s: State, p: nat, t: State)
    requires p in s.procs && Quiet(s, p) && At(cfg, s, p, t) && t.procs[p].pc.AttachLost?
    ensures CanMove(cfg, t, p)
  {
    var x, r := t.procs[p], t.procs[p].pc.row;
    var u := UidAnswer(t.db, x.token.uid);
    assert Next(cfg, t, Statement(p, u), if u == Some(r) then Goto(t, p, Resolved(x.token, r)) else Refused(t, p));
  }

  lemma LoginCanMove(cfg: Config, s: State, p: nat, t: State)
    requires p in s.procs && Quiet(s, p) && At(cfg, s, p, t)
    requires t.procs[p].pc.LoginVerify? || t.procs[p].pc.LoginStamp? || t.procs[p].pc.Lock?
    ensures CanMove(cfg, t, p)
  {
    var x, r := t.procs[p], t.procs[p].pc.row;
    match x.pc
    case LoginStamp(_) =>
      assert Next(cfg, t, Statement(p, None), GotoWith(t, p, ReadMembership(r), Holding(t, x.tx, r)));
    case Lock(_) =>
      assert Next(cfg, t, Statement(p, None), GotoWith(t, p, ReReadMembership(r), Holding(t, x.tx, r)));
    case LoginVerify(_) =>
      var tx := if x.tx.row == Some(r) then x.tx.(image := x.tx.image.(verified := true))
                else if r in t.db.users && !t.db.users[r].verified
                then x.tx.(row := Some(r), image := t.db.users[r].(verified := true))
                else x.tx;
      assert VerifyStep(t, p, r, GotoWith(t, p, LoginStamp(r), tx));
      assert Next(cfg, t, Statement(p, None), GotoWith(t, p, LoginStamp(r), tx));
  }

  lemma MembershipCanMove(cfg: Config, s: State, p: nat, t: State)
    requires p in s.procs && Quiet(s, p) && At(cfg, s, p, t)
    requires t.procs[p].pc.ReadMembership? || t.procs[p].pc.ReReadMembership?
    ensures CanMove(cfg, t, p)
  {
    var x, r := t.procs[p], t.procs[p].pc.row;
    var o := OrgAnswer(t.db, x.token.email);
    var on := if x.pc.ReadMembership? then o.None? && x.token.verified && cfg.signupEnabled else o.None?;
    assert Next(cfg, t, Statement(p, o),
        Goto(t, p, if !on then Commit(r) else if x.pc.ReadMembership? then Lock(r) else CreateOrg(r)));
  }

  lemma ProvisionCanMove(cfg: Config, s: State, p: nat, t: State)
    requires p in s.procs && Quiet(s, p) && At(cfg, s, p, t)
    requires t.procs[p].pc.CreateOrg? || t.procs[p].pc.CreateMembership?
    ensures CanMove(cfg, t, p)
  {
    var x, r := t.procs[p], t.procs[p].pc.row;
    if x.pc.CreateMembership? {
      assert Next(cfg, t, Statement(p, None), GotoWith(t, p, Claim(r), x.tx.(member := true)));
    } else if exists o :: o in t.db.orgs && t.db.orgs[o] == Some(x.token.uid) {
      assert Next(cfg, t, Statement(p, None), Refused(t, p));
    } else {
      assert Next(cfg, t, Statement(p, None),
          GotoWith(t, p, CreateMembership(r), x.tx.(org := Some(t.nextOrg))).(nextOrg := t.nextOrg + 1));
    }
  }

  lemma PayingCanMove(cfg: Config, s: State, p: nat, t: State)
    requires p in s.procs && Quiet(s, p) && At(cfg, s, p, t)
    requires t.procs[p].pc.Claim? || t.procs[p].pc.Grant? || t.procs[p].pc.Commit?
    ensures CanMove(cfg, t, p)
  {
    var x, r := t.procs[p], t.procs[p].pc.row;
    var d := cfg.digest(x.token.email);
    if x.pc.Commit? {
      assert Next(cfg, t, Statement(p, None), t.(db := Applied(t.db, x.token, x.tx), procs := t.procs - {p}));
    } else if x.pc.Grant? {
      assert Next(cfg, t, Statement(p, None), GotoWith(t, p, Commit(r), x.tx.(grant := cfg.amount)));
    } else if cfg.amount <= 0 || cfg.withheld(x.token.email) || d in t.db.claims {
      assert Next(cfg, t, Statement(p, None), Goto(t, p, Commit(r)));
    } else {
      assert Next(cfg, t, Statement(p, None), GotoWith(t, p, Grant(r), x.tx.(claim := Some(d))));
    }
  }

  lemma NeverStuck(cfg: Config, s: State, p: nat, t: State)
    requires p in s.procs && Quiet(s, p) && At(cfg, s, p, t)
    ensures CanMove(cfg, t, p)
  {
    match t.procs[p].pc
    case ReadUid => FindCanMove(cfg, s, p, t);
    case Conflicted => FindCanMove(cfg, s, p, t);
    case ReadEmail => FindCanMove(cfg, s, p, t);
    case ConflictedEmail => FindCanMove(cfg, s, p, t);
    case Insert => InsertCanMove(cfg, s, p, t);
    case Link(_, _) => LinkCanMove(cfg, s, p, t);
    case Repoint(_, _) => TakeOverCanMove(cfg, s, p, t);
    case Attach(_) => TakeOverCanMove(cfg, s, p, t);
    case AttachLost(_) => AttachLostCanMove(cfg, s, p, t);
    case LoginVerify(_) => LoginCanMove(cfg, s, p, t);
    case LoginStamp(_) => LoginCanMove(cfg, s, p, t);
    case Lock(_) => LoginCanMove(cfg, s, p, t);
    case ReadMembership(_) => MembershipCanMove(cfg, s, p, t);
    case ReReadMembership(_) => MembershipCanMove(cfg, s, p, t);
    case CreateOrg(_) => ProvisionCanMove(cfg, s, p, t);
    case CreateMembership(_) => ProvisionCanMove(cfg, s, p, t);
    case Claim(_) => PayingCanMove(cfg, s, p, t);
    case Grant(_) => PayingCanMove(cfg, s, p, t);
    case Commit(_) => PayingCanMove(cfg, s, p, t);
  }

  // ---- undisturbed runs ---------------------------------------------------------------------------------

  /** From `states[0]` on, request `p` runs alone, one statement after another. */
  ghost predicate Alone(cfg: Config, p: nat, states: seq<State>) {
    && states != [] && p in states[0].procs
    && forall i :: 0 <= i < |states| - 1 ==> p in states[i].procs && Stepped(cfg, p, states[i], states[i + 1])
  }

  ghost predicate Stepped(cfg: Config, p: nat, t: State, after: State) {
    exists found :: Next(cfg, t, Statement(p, found), after)
  }

  lemma {:induction false} StaysAt(cfg: Config, addr: string -> string, p: nat, states: seq<State>, i: nat)
    requires Alone(cfg, p, states) && Ready(states[0], cfg, addr, p) && i < |states| && p in states[i].procs
    ensures At(cfg, states[0], p, states[i]) && Rank(states[i].procs[p].pc) + i <= 17
  {
    if i == 0 {
      assert ProcInv(states[0], cfg, addr, states[0].procs[p]);
    } else {
      StaysAt(cfg, addr, p, states, i - 1);
      assert Stepped(cfg, p, states[i - 1], states[i]);
      var found :| Next(cfg, states[i - 1], Statement(p, found), states[i]);
      StatementMoves(cfg, addr, states[0], p, states[i - 1], found, states[i]);
    }
  }

  /** WHO GETS IN. A request that runs undisturbed from any statement at which its user is not resolved yet is
      never stuck and ends within eighteen statements; its last statement is a commit exactly when the tables it
      started from accept it, and leaves the tables as stated, and is a refusal that leaves them alone otherwise. */
  lemma UndisturbedSignIn(cfg: Config, addr: string -> string, p: nat, states: seq<State>)
    requires Alone(cfg, p, states) && Ready(states[0], cfg, addr, p)
    ensures |states| <= 19
    ensures var last := states[|states| - 1];
      if p in last.procs then CanMove(cfg, last, p)
      else Ends(cfg, states[0], p, last, states[|states| - 2].procs[p].pc.Commit?)
  {
    var n := |states| - 1;
    if n > 0 {
      StaysAt(cfg, addr, p, states, n - 1);
      assert Stepped(cfg, p, states[n - 1], states[n]);
      var found :| Next(cfg, states[n - 1], Statement(p, found), states[n]);
      StatementMoves(cfg, addr, states[0], p, states[n - 1], found, states[n]);
    }
    if p in states[n].procs {
      StaysAt(cfg, addr, p, states, n);
      NeverStuck(cfg, states[0], p, states[n]);
    }
  }

  lemma Onward(cfg: Config, p: nat, states: seq<State>) returns (longer: seq<State>)
    requires Alone(cfg, p, states) && p in states[|states| - 1].procs && CanMove(cfg, states[|states| - 1], p)
    ensures Alone(cfg, p, longer) && |longer| == |states| + 1 && longer[0] == states[0]
  {
    var last := states[|states| - 1];
    var found, after :| Next(cfg, last, Statement(p, found), after);
    assert Stepped(cfg, p, last, after);
    longer := states + [after];
    forall i | 0 <= i < |longer| - 1 ensures p in longer[i].procs && Stepped(cfg, p, longer[i], longer[i + 1]) {
      assert i < |states| - 1 ==> Stepped(cfg, p, states[i], states[i + 1]);
    }
  }

  /** Every undisturbed run goes on to its end. */
  lemma {:induction false} RunsToItsEnd(cfg: Config, addr: string -> string, p: nat, states: seq<State>)
      returns (whole: seq<State>)
    requires Alone(cfg, p, states) && Ready(states[0], cfg, addr, p)
    ensures Alone(cfg, p, whole) && whole[0] == states[0] && p !in whole[|whole| - 1].procs
    decreases 19 - |states|
  {
    UndisturbedSignIn(cfg, addr, p, states);
    whole := states;
    if p in states[|states| - 1].procs {
      var longer := Onward(cfg, p, states);
      UndisturbedSignIn(cfg, addr, p, longer);
      whole := RunsToItsEnd(cfg, addr, p, longer);
    }
  }

  // ---- what that means ------------------------------------------------------------------------------------

  /** A whole sign-in of `token` as request `p`, alone from beginning to end, over the tables of `s`. */
  ghost predicate SignIn(cfg: Config, addr: string -> string, s: State, p: nat, token: Token, states: seq<State>) {
    && Inv(s, cfg, addr) && p !in s.procs && (forall q :: q in s.procs ==> s.procs[q].tx == EMPTY)
    && token.email == addr(token.uid)
    && Alone(cfg, p, states) && Next(cfg, s, Begin(p, token), states[0]) && p !in states[|states| - 1].procs
  }

  ghost predicate Committed(p: nat, states: seq<State>)
    requires |states| > 1 && p in states[|states| - 2].procs
  {
    states[|states| - 2].procs[p].pc.Commit?
  }

  /** A sign-in that nothing disturbs commits if and only if its uid is on a row; or its address is unknown and
      signups are on; or its token is verified and the row of its address is unlinked, or unproven and without an
      organisation. */
  lemma SignInCommitsIff(cfg: Config, addr: string -> string, s: State, p: nat, token: Token, states: seq<State>)
    requires SignIn(cfg, addr, s, p, token, states)
    ensures |states| > 1 && p in states[|states| - 2].procs
    ensures Committed(p, states) <==>
      || (exists r :: r in s.db.users && s.db.users[r].uid == Some(token.uid))
      || ((forall r :: r in s.db.users ==> s.db.users[r].email != token.email) && cfg.signupEnabled)
      || (token.verified && exists r :: Backfilled(s.db, token, r) || Squatted(s.db, token, r))
    ensures if Committed(p, states)
            then exists r :: Home(s, token, r) && states[|states| - 1].db == SignedIn(cfg, s.db, token, r, s.nextOrg)
            else states[|states| - 1].db == s.db
  {
    BeginKeeps(s, states[0], cfg, addr, p, token);
    UndisturbedSignIn(cfg, addr, p, states);
    assert Linked(s.db, token) <==> exists r :: r in s.db.users && s.db.users[r].uid == Some(token.uid);
    if Committed(p, states) {
      var r :| Home(states[0], token, r)
        && states[|states| - 1].db == SignedIn(cfg, s.db, token, r, s.nextOrg);
      assert Home(s, token, r);
    }
  }

  /** And there is such a run of every sign-in. */
  lemma SignInRuns(cfg: Config, addr: string -> string, s: State, p: nat, token: Token) returns (states: seq<State>)
    requires Inv(s, cfg, addr) && p !in s.procs && (forall q :: q in s.procs ==> s.procs[q].tx == EMPTY)
    requires token.email == addr(token.uid)
    ensures SignIn(cfg, addr, s, p, token, states)
  {
    var begun := s.(procs := s.procs[p := Process(token, ReadUid, EMPTY)]);
    BeginKeeps(s, begun, cfg, addr, p, token);
    states := RunsToItsEnd(cfg, addr, p, [begun]);
  }

  lemma HomeIs(cfg: Config, addr: string -> string, s: State, token: Token, r: nat, q: nat)
    requires Inv(s, cfg, addr) && r in s.db.users && s.db.users[r].email == token.email && Home(s, token, q)
    ensures q == r
  {
  }

  /** A row the token may sign in to: its own, one nobody linked, or one nobody proved. */
  ghost predicate MayEnter(db: Db, token: Token, r: nat) {
    || (r in db.users && db.users[r].uid == Some(token.uid))
    || (token.verified && (Backfilled(db, token, r) || Squatted(db, token, r)))
  }

  /** A returning user, a backfilled row and a squatted one: the sign-in commits, the row then has the token's uid,
      and its address is proven if it was or the token proves it; no other row changes. */
  lemma KnownRowGetsIn(cfg: Config, addr: string -> string, s: State, p: nat, token: Token, states: seq<State>, r: nat)
    requires SignIn(cfg, addr, s, p, token, states) && MayEnter(s.db, token, r)
    ensures |states| > 1 && p in states[|states| - 2].procs && Committed(p, states)
    ensures states[|states| - 1].db.users
         == s.db.users[r := User(token.email, Some(token.uid), s.db.users[r].verified || token.verified)]
    ensures (exists m :: m in s.db.members && m.0 == r) ==>
      states[|states| - 1].db == s.db.(users := states[|states| - 1].db.users)
  {
    SignInCommitsIff(cfg, addr, s, p, token, states);
    var q :| Home(s, token, q) && states[|states| - 1].db == SignedIn(cfg, s.db, token, q, s.nextOrg);
    HomeIs(cfg, addr, s, token, r, q);
  }

  /** A request whose insert, or whose attaching of the uid, was beaten by its own duplicate gets in as well. */
  lemma LoserGetsIn(cfg: Config, addr: string -> string, p: nat, states: seq<State>)
    requires Alone(cfg, p, states) && Ready(states[0], cfg, addr, p) && p !in states[|states| - 1].procs
    requires var pc := states[0].procs[p].pc;
      pc.Insert? || pc.Conflicted? || pc.ConflictedEmail? || pc.Attach? || pc.AttachLost?
    requires Linked(states[0].db, states[0].procs[p].token)
    ensures |states| > 1 && p in states[|states| - 2].procs && Committed(p, states)
  {
    var (s, token, pc) := (states[0], states[0].procs[p].token, states[0].procs[p].pc);
    assert ProcInv(s, cfg, addr, s.procs[p]);
    var r :| r in s.db.users && s.db.users[r].uid == Some(token.uid);
    OnlyHome(s, cfg, addr, p, r);
    UndisturbedSignIn(cfg, addr, p, states);
  }

  /** Not so one whose duplicate has replaced the unproven uid first: its own guarded update finds another uid than
      it read, and it is refused although the row has its uid. */
  lemma SecondReplacementIsRefused(cfg: Config, addr: string -> string, p: nat, states: seq<State>, r: nat,
                                   from: string)
    requires Alone(cfg, p, states) && Ready(states[0], cfg, addr, p) && p !in states[|states| - 1].procs
    requires states[0].procs[p].pc == Repoint(r, from) && from != states[0].procs[p].token.uid
    requires states[0].db.users[r].uid == Some(states[0].procs[p].token.uid)
    ensures |states| > 1 && p in states[|states| - 2].procs && !Committed(p, states)
    ensures states[|states| - 1].db == states[0].db
  {
    UndisturbedSignIn(cfg, addr, p, states);
  }

  // ---- erasure --------------------------------------------------------------------------------------------

  /** WHAT AN ERASURE TAKES: the members of the organisation, who belong to no other, and their memberships. Every
      other user and membership stays, and so does every grant and claim; the organisation's row stays under a slug of
      nobody's. */
  lemma ErasureTakes(s: State, cfg: Config, addr: string -> string, org: nat, after: State)
    requires Inv(s, cfg, addr) && Next(cfg, s, Erase(org), after)
    ensures forall r :: r in after.db.users <==> r in s.db.users && (r, org) !in s.db.members
    ensures forall r :: r in after.db.users ==> after.db.users[r] == s.db.users[r]
    ensures forall m :: m in after.db.members <==> m in s.db.members && m.1 != org
    ensures after.db.grants == s.db.grants && after.db.claims == s.db.claims && after.db.orgs == s.db.orgs[org := None]
    ensures after.procs == s.procs
  {
    forall r ensures r in Leaving(s.db, org) <==> (r, org) in s.db.members {
      if (r, org) in s.db.members {
        assert forall n :: n in s.db.members && n.0 == r ==> n == (r, org);
        assert (r, org).0 == r;
      }
    }
  }

  /** COMING BACK AFTER IT. A member who was erased and signs in again with a verified token is let in as new, on a
      new row with a new organisation, and is not paid a second time. */
  lemma ErasedMemberReturns(s: State, cfg: Config, addr: string -> string, org: nat, erased: State, r: nat, p: nat,
                            token: Token, states: seq<State>)
    requires Inv(s, cfg, addr) && Next(cfg, s, Erase(org), erased) && (r, org) in s.db.members
    requires s.db.users[r].email == token.email && cfg.digest(token.email) in s.db.claims
    requires SignIn(cfg, addr, erased, p, token, states) && token.verified && cfg.signupEnabled
    ensures |states| > 1 && p in states[|states| - 2].procs && Committed(p, states)
    ensures var db := states[|states| - 1].db;
      && db.users == erased.db.users[s.nextUser := User(token.email, Some(token.uid), true)]
      && db.members == erased.db.members + {(s.nextUser, s.nextOrg)}
      && db.orgs == erased.db.orgs[s.nextOrg := Some(token.uid)]
      && db.grants == s.db.grants && db.claims == s.db.claims
  {
    ErasureTakes(s, cfg, addr, org, erased);
    assert Unknown(erased.db, token);
    SignInCommitsIff(cfg, addr, erased, p, token, states);
    var q :| Home(erased, token, q) && states[|states| - 1].db == SignedIn(cfg, erased.db, token, q, erased.nextOrg);
    assert q == s.nextUser && Loose(erased.db, q);
  }
}
