/** What a claim on the signup grant stands for: the application's digest of an address
    (src/meshpipeline/application/signup_claims.py) and the copy of it that the seeding migration
    froze (alembic/versions/0019_signup_claims_and_erasure.py) name one mailbox alike. */
module SignupClaims {
  import opened Wrappers
  import opened Text
  import opened Mailbox
  import opened Accounts

  const CONTEXT := "hexera-signup-grant-claim:v1:"

  function ClaimDigest(hash: string -> string, email: string): string { hash(CONTEXT + Normalized(email)) }

  /** The migration's own mailbox of an address. */
  function SeedMailbox(email: string): string {
    var address := Lower(Strip(email));
    var at := LastAt(address);
    if at > 0 then
      var (local, domain) := (BeforePlus(address[..at]), address[at + 1..]);
      if DotInsensitive(domain) then WithoutDots(local) + "@gmail.com" else local + "@" + domain
    else address
  }

  function SeedDigest(hash: string -> string, email: string): string { hash(CONTEXT + SeedMailbox(email)) }

  /** `digest` is the rule the application deploys, `seed` the one its migration runs. */
  ghost predicate Deployed(cfg: Config, seed: string -> string, hash: string -> string) {
    forall e :: cfg.digest(e) == ClaimDigest(hash, e) && seed(e) == SeedDigest(hash, e)
  }

  /** The migration's copy and the application's rule are one. */
  lemma DigestsAgree(hash: string -> string, email: string)
    ensures SeedMailbox(email) == Normalized(email) && SeedDigest(hash, email) == ClaimDigest(hash, email)
    ensures ClaimDigest(hash, email) == hash("hexera-signup-grant-claim:v1:" + Normalized(email))
  {
    var address := Lower(Strip(email));
    var at := LastAt(address);
    if at > 0 {
      var kept := WithoutDots(BeforePlus(address[..at]));
      assert kept + "@gmail.com" == kept + "@" + "gmail.com";
    }
  }

  lemma SeededAlike(db: Db, a: string -> string, b: string -> string)
    requires forall e :: a(e) == b(e)
    ensures Seeded(db, a) == Seeded(db, b)
  {
    assert (set e | e in GrantedEmails(db) :: a(e)) == set e | e in GrantedEmails(db) :: b(e);
  }

  /** No run of the deployed application after its migration pays a mailbox that an earlier grant
      reached, under whatever spelling of its address. */
  lemma SeededMailboxesAreNotPaidAgain(cfg: Config, seed: string -> string, hash: string -> string,
                                       addr: string -> string, states: seq<State>, acts: seq<Action>,
                                       db: Db, j: nat, token: Token)
    requires Deployed(cfg, seed, hash)
    requires Run(cfg, addr, states, acts) && j < |acts|
    requires states[0].db == Seeded(db, seed)
    requires Pays(states[j], acts[j], token)
    ensures forall e :: e in GrantedEmails(db) ==> Normalized(e) != Normalized(token.email)
  {
    forall e ensures seed(e) == cfg.digest(e) { DigestsAgree(hash, e); }
    SeededAlike(db, seed, cfg.digest);
    DigestsNotPaidAgain(cfg, addr, states, acts, db, j, token);
    forall e | e in GrantedEmails(db) ensures Normalized(e) != Normalized(token.email) {
      assert cfg.digest(e) != cfg.digest(token.email);
    }
  }

  /** And two payments of one run go to different mailboxes. */
  lemma PaidMailboxesDiffer(cfg: Config, seed: string -> string, hash: string -> string, addr: string -> string,
                            states: seq<State>, acts: seq<Action>, i: nat, j: nat, first: Token, second: Token)
    requires Deployed(cfg, seed, hash)
    requires Run(cfg, addr, states, acts) && i < j < |acts|
    requires Pays(states[i], acts[i], first) && Pays(states[j], acts[j], second)
    ensures Normalized(first.email) != Normalized(second.email)
  {
    OneGrantPerMailbox(cfg, addr, states, acts, i, j, first, second);
  }

  // ---- what a run pays, by mailbox ------------------------------------------------------------------------

  /** The request keeps its token. */
  ghost predicate SameTokens(s: State, after: State) {
    forall p :: p in after.procs ==> p in s.procs && after.procs[p].token == s.procs[p].token
  }

  lemma FindKeepsTokens(cfg: Config, s: State, p: nat, found: Option<nat>, after: State)
    requires p in s.procs && FindStep(s, p, found, after, cfg)
    ensures SameTokens(s, after)
  {
  }

  lemma LinkKeepsTokens(s: State, p: nat, found: Option<nat>, after: State)
    requires p in s.procs && LinkStep(s, p, found, after)
    ensures SameTokens(s, after)
  {
  }

  lemma LoginKeepsTokens(cfg: Config, s: State, p: nat, found: Option<nat>, after: State)
    requires p in s.procs && LoginStep(s, p, found, after, cfg)
    ensures SameTokens(s, after)
  {
  }

  lemma ProvisionKeepsTokens(cfg: Config, s: State, p: nat, after: State)
    requires p in s.procs && ProvisionStep(s, p, after, cfg)
    ensures SameTokens(s, after)
  {
  }

  lemma TokensStay(cfg: Config, s: State, a: Action, after: State)
    requires Next(cfg, s, a, after) && !a.Begin?
    ensures SameTokens(s, after)
  {
    if a.Statement? {
      if FindStep(s, a.p, a.found, after, cfg) {
        FindKeepsTokens(cfg, s, a.p, a.found, after);
      } else if LinkStep(s, a.p, a.found, after) {
        LinkKeepsTokens(s, a.p, a.found, after);
      } else if LoginStep(s, a.p, a.found, after, cfg) {
        LoginKeepsTokens(cfg, s, a.p, a.found, after);
      } else {
        ProvisionKeepsTokens(cfg, s, a.p, after);
      }
    }
  }

  /** The mailboxes of the addresses that have signed in by the `n`-th step. */
  ghost function Mailboxes(acts: seq<Action>, n: nat): set<string>
    requires n <= |acts|
  {
    set i | 0 <= i < n && acts[i].Begin? :: Normalized(acts[i].token.email)
  }

  lemma {:induction false} RequestsSignedIn(cfg: Config, addr: string -> string, states: seq<State>, acts: seq<Action>,
                                            n: nat, p: nat)
    requires Run(cfg, addr, states, acts) && n <= |acts| && p in states[n].procs
    ensures Normalized(states[n].procs[p].token.email) in Mailboxes(acts, n)
  {
    if n > 0 {
      var a := acts[n - 1];
      assert Next(cfg, states[n - 1], a, states[n]);
      if a.Begin? && a.p == p {
        assert states[n].procs[p].token == a.token;
      } else {
        if !a.Begin? { TokensStay(cfg, states[n - 1], a, states[n]); }
        RequestsSignedIn(cfg, addr, states, acts, n - 1, p);
      }
    }
  }

  /** A claim that a step adds is the digest of the request that commits in it. */
  lemma NewClaim(cfg: Config, addr: string -> string, s: State, a: Action, after: State, c: string)
    requires Inv(s, cfg, addr) && Next(cfg, s, a, after) && c in after.db.claims && c !in s.db.claims
    ensures a.Statement? && a.p in s.procs && c == cfg.digest(s.procs[a.p].token.email)
  {
    if a.Statement? && s.procs[a.p].pc.Commit? {
      assert ProcInv(s, cfg, addr, s.procs[a.p]);
    } else {
      assert forall token :: !Commits(s, a, token);
      if !a.Erase? { OnlyCommitsWrite(cfg, s, a, after); }
    }
  }

  ghost function Digests(hash: string -> string, mailboxes: set<string>): set<string> {
    set m | m in mailboxes :: hash(CONTEXT + m)
  }

  lemma {:induction false} DigestsNoMore(hash: string -> string, mailboxes: set<string>)
    ensures |Digests(hash, mailboxes)| <= |mailboxes|
    decreases mailboxes
  {
    if mailboxes != {} {
      var m :| m in mailboxes;
      DigestsNoMore(hash, mailboxes - {m});
      assert Digests(hash, mailboxes) == Digests(hash, mailboxes - {m}) + {hash(CONTEXT + m)};
    }
  }

  lemma {:induction false} ClaimsOfMailboxes(cfg: Config, hash: string -> string, addr: string -> string,
                                             states: seq<State>, acts: seq<Action>, n: nat)
    requires Run(cfg, addr, states, acts) && n <= |acts| && forall e :: cfg.digest(e) == ClaimDigest(hash, e)
    ensures states[n].db.claims - states[0].db.claims <= Digests(hash, Mailboxes(acts, n))
  {
    if n > 0 {
      ClaimsOfMailboxes(cfg, hash, addr, states, acts, n - 1);
      RunKeeps(cfg, addr, states, acts, n - 1);
      forall c | c in states[n].db.claims - states[0].db.claims ensures c in Digests(hash, Mailboxes(acts, n)) {
        if c in states[n - 1].db.claims {
          assert c in Digests(hash, Mailboxes(acts, n - 1));
        } else {
          NewClaim(cfg, addr, states[n - 1], acts[n - 1], states[n], c);
          RequestsSignedIn(cfg, addr, states, acts, n - 1, acts[n - 1].p);
        }
      }
    }
  }

  /** What a run of the deployed application pays out is at most the configured amount for each distinct
      mailbox among the addresses that signed in, whatever their spellings. */
  lemma PayoutBoundedByMailboxes(cfg: Config, seed: string -> string, hash: string -> string, addr: string -> string,
                                 states: seq<State>, acts: seq<Action>, n: nat)
    requires Deployed(cfg, seed, hash)
    requires Run(cfg, addr, states, acts) && n <= |acts| && cfg.amount >= 0
    ensures var paid := states[n].db.grants.Keys - states[0].db.grants.Keys;
            Sum(states[n].db.grants, paid) <= |Mailboxes(acts, n)| * cfg.amount
  {
    PayoutBounded(cfg, addr, states, acts, n);
    ClaimsOfMailboxes(cfg, hash, addr, states, acts, n);
    DigestsNoMore(hash, Mailboxes(acts, n));
    SubsetSize(states[n].db.claims - states[0].db.claims, Digests(hash, Mailboxes(acts, n)));
    Scale(|states[n].db.claims - states[0].db.claims|, |Mailboxes(acts, n)|, cfg.amount);
  }
}
