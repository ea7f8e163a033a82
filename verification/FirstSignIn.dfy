/** A first sign-in that nothing disturbs, step by step: the protocol of the Accounts module does what it
    is for (src/meshpipeline/application/account_service.py). */
module FirstSignIn {
  import opened Wrappers
  import opened Accounts

  const BARE := Db(map[], map[], {}, map[], {})

  /** The only request, at `pc`, over the empty tables. */
  function Alone(token: Token, pc: Pc, tx: Tx, users: nat, orgs: nat): State {
    State(BARE, map[0 := Process(token, pc, tx)], users, orgs)
  }

  function Row(token: Token, verified: bool): Tx {
    EMPTY.(row := Some(0), image := User(token.email, Some(token.uid), verified), inserted := true)
  }

  /** A run from the empty tables that ends in `s`. */
  ghost predicate Leads(cfg: Config, addr: string -> string, states: seq<State>, acts: seq<Action>, s: State) {
    Run(cfg, addr, states, acts) && states[0].db == BARE && states[|states| - 1] == s
  }

  ghost predicate Reached(cfg: Config, addr: string -> string, s: State) {
    exists states, acts :: Leads(cfg, addr, states, acts, s)
  }

  lemma Onward(cfg: Config, addr: string -> string, s: State, a: Action, t: State)
    requires Reached(cfg, addr, s) && Next(cfg, s, a, t) && OneAddress(a, addr)
    ensures Reached(cfg, addr, t)
  {
    var states, acts :| Leads(cfg, addr, states, acts, s);
    var longer, more := states + [t], acts + [a];
    forall i | 0 <= i < |more| ensures Next(cfg, longer[i], more[i], longer[i + 1]) && OneAddress(more[i], addr) {
      if i < |acts| { assert Next(cfg, states[i], acts[i], states[i + 1]); }
    }
    assert Leads(cfg, addr, longer, more, t);
  }

  lemma FindsNobody(cfg: Config, addr: string -> string, token: Token)
    requires cfg.signupEnabled && token.verified && token.email == addr(token.uid)
    ensures Reached(cfg, addr, Alone(token, Insert, EMPTY, 0, 0))
  {
    var start := State(BARE, map[], 0, 0);
    assert Leads(cfg, addr, [start], [], start);
    Onward(cfg, addr, start, Begin(0, token), Alone(token, ReadUid, EMPTY, 0, 0));
    Onward(cfg, addr, Alone(token, ReadUid, EMPTY, 0, 0), Statement(0, None), Alone(token, ReadEmail, EMPTY, 0, 0));
    Onward(cfg, addr, Alone(token, ReadEmail, EMPTY, 0, 0), Statement(0, None), Alone(token, Insert, EMPTY, 0, 0));
  }

  lemma ProvesItself(cfg: Config, addr: string -> string, token: Token)
    requires token.verified && Reached(cfg, addr, Alone(token, Insert, EMPTY, 0, 0))
    ensures Reached(cfg, addr, Alone(token, ReadMembership(0), Row(token, true), 1, 0))
  {
    var unproven, proven := Row(token, false), Row(token, true);
    Onward(cfg, addr, Alone(token, Insert, EMPTY, 0, 0), Statement(0, None),
        Alone(token, LoginVerify(0), unproven, 1, 0));
    Onward(cfg, addr, Alone(token, LoginVerify(0), unproven, 1, 0), Statement(0, None),
        Alone(token, LoginStamp(0), proven, 1, 0));
    Onward(cfg, addr, Alone(token, LoginStamp(0), proven, 1, 0), Statement(0, None),
        Alone(token, ReadMembership(0), proven, 1, 0));
  }

  lemma HoldsTheLock(cfg: Config, addr: string -> string, token: Token)
    requires token.verified && cfg.signupEnabled
    requires Reached(cfg, addr, Alone(token, ReadMembership(0), Row(token, true), 1, 0))
    ensures Reached(cfg, addr, Alone(token, CreateOrg(0), Row(token, true), 1, 0))
  {
    var row := Row(token, true);
    Onward(cfg, addr, Alone(token, ReadMembership(0), row, 1, 0), Statement(0, None), Alone(token, Lock(0), row, 1, 0));
    Onward(cfg, addr, Alone(token, Lock(0), row, 1, 0), Statement(0, None),
        Alone(token, ReReadMembership(0), row, 1, 0));
    Onward(cfg, addr, Alone(token, ReReadMembership(0), row, 1, 0), Statement(0, None),
        Alone(token, CreateOrg(0), row, 1, 0));
  }

  lemma Founds(cfg: Config, addr: string -> string, token: Token)
    requires Reached(cfg, addr, Alone(token, CreateOrg(0), Row(token, true), 1, 0))
    ensures Reached(cfg, addr, Alone(token, Claim(0), Row(token, true).(org := Some(0), member := true), 1, 1))
  {
    var row := Row(token, true);
    Onward(cfg, addr, Alone(token, CreateOrg(0), row, 1, 0), Statement(0, None),
           Alone(token, CreateMembership(0), row.(org := Some(0)), 1, 1));
    Onward(cfg, addr, Alone(token, CreateMembership(0), row.(org := Some(0)), 1, 1), Statement(0, None),
           Alone(token, Claim(0), row.(org := Some(0), member := true), 1, 1));
  }

  lemma IsPaid(cfg: Config, addr: string -> string, token: Token)
    requires cfg.amount > 0 && !cfg.withheld(token.email)
    requires Reached(cfg, addr, Alone(token, Claim(0), Row(token, true).(org := Some(0), member := true), 1, 1))
    ensures Reached(cfg, addr, Alone(token, Commit(0), Paid(cfg, token), 1, 1))
  {
    var row := Row(token, true).(org := Some(0), member := true);
    var claimed := row.(claim := Some(cfg.digest(token.email)));
    Onward(cfg, addr, Alone(token, Claim(0), row, 1, 1), Statement(0, None), Alone(token, Grant(0), claimed, 1, 1));
    Onward(cfg, addr, Alone(token, Grant(0), claimed, 1, 1), Statement(0, None),
        Alone(token, Commit(0), Paid(cfg, token), 1, 1));
  }

  function Paid(cfg: Config, token: Token): Tx {
    Row(token, true).(org := Some(0), member := true, claim := Some(cfg.digest(token.email)), grant := cfg.amount)
  }

  /** The tables that leaves. */
  function SignedUp(cfg: Config, token: Token): Db {
    Db(map[0 := User(token.email, Some(token.uid), true)], map[0 := Some(token.uid)], {(0, 0)},
       map[0 := cfg.amount], {cfg.digest(token.email)})
  }

  lemma CommitLands(cfg: Config, addr: string -> string, token: Token)
    requires cfg.amount > 0 && Reached(cfg, addr, Alone(token, Commit(0), Paid(cfg, token), 1, 1))
    ensures Reached(cfg, addr, State(SignedUp(cfg, token), map[], 1, 1))
  {
    var s := Alone(token, Commit(0), Paid(cfg, token), 1, 1);
    assert Applied(BARE, token, Paid(cfg, token)) == SignedUp(cfg, token);
    assert s.procs - {0} == map[];
    Onward(cfg, addr, s, Statement(0, None), State(SignedUp(cfg, token), map[], 1, 1));
  }

  /** A proven address that signs in for the first time comes away with one row, one organisation, one
      membership and the signup grant. */
  lemma FirstSignInProvisions(cfg: Config, addr: string -> string, token: Token)
    requires token.verified && token.email == addr(token.uid)
    requires cfg.signupEnabled && cfg.amount > 0 && !cfg.withheld(token.email)
    ensures Reached(cfg, addr, State(SignedUp(cfg, token), map[], 1, 1))
    ensures UsersOf(SignedUp(cfg, token), token.email) == {0} && GrantsOf(SignedUp(cfg, token), token.email) == {0}
  {
    FindsNobody(cfg, addr, token);
    ProvesItself(cfg, addr, token);
    HoldsTheLock(cfg, addr, token);
    Founds(cfg, addr, token);
    IsPaid(cfg, addr, token);
    CommitLands(cfg, addr, token);
    var db := SignedUp(cfg, token);
    assert UsersOf(db, token.email) == {0};
    assert (0, 0) in MembershipsOf(db, token.email);
    assert GrantsOf(db, token.email) == {0};
  }
}
