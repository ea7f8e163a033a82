/** Convergence of the credit balance: what reordered and repeated billing deliveries cannot change,
    and exactly when they can (src/meshpipeline/application/billing_service.py). */
module Convergence {
  import opened Wrappers
  import opened Text
  import opened Credits
  import opened Billing

  /** The organisation under study, its customer, and the one tier its events name. */
  datatype Account = Account(org: nat, customer: string, tier: string)

  predicate PeriodInvoice(a: Account, e: Event) {
    e.body.InvoicePaid? && CarriesAllowance(e.body.reason)
    && IdOf(e.body.customer) != "" && Strip(IdOf(e.body.customer)) == a.customer
  }

  predicate ForOrg(cfg: Config, a: Account, e: Event) {
    (e.body.Checkout? || e.body.SubscriptionSet? || e.body.SubscriptionDeleted?)
    && OrganizationOf(cfg, e.body.metadata) == Some(a.org)
  }

  predicate PaidPack(cfg: Config, a: Account, e: Event) {
    ForOrg(cfg, a, e) && e.body.Checkout? && Paid(e.body.paymentStatus)
  }

  /** The events that can matter to this account. */
  predicate Matters(cfg: Config, a: Account, e: Event) {
    PeriodInvoice(a, e) || PaidPack(cfg, a, e)
    || (ForOrg(cfg, a, e) && (e.body.SubscriptionSet? || e.body.SubscriptionDeleted?))
  }

  /** The customer is attached to this organisation and to no other. */
  ghost predicate Settled(s: Store, a: Account) {
    && CustomersUnique(s.orgs)
    && a.org in s.orgs && s.orgs[a.org].customer == Some(a.customer)
    && (s.orgs[a.org].plan == "" || s.orgs[a.org].plan == a.tier)
  }

  /** Checkouts keep the customer where it is, and whatever names a tier names this one. */
  ghost predicate Agreeable(cfg: Config, a: Account, e: Event) {
    && (e.body.Checkout? && OrganizationOf(cfg, e.body.metadata).Some? && IdOf(e.body.customer) != "" ==>
          (OrganizationOf(cfg, e.body.metadata).value == a.org <==> Strip(IdOf(e.body.customer)) == a.customer))
    && (ForOrg(cfg, a, e) && e.body.SubscriptionSet? ==>
        PlanOfSubscription(cfg, e.body) == "" || PlanOfSubscription(cfg, e.body) == a.tier)
    && (PeriodInvoice(a, e) ==> PlanOfInvoice(e.body) == "" || PlanOfInvoice(e.body) == a.tier)
  }

  ghost predicate AllAgreeable(cfg: Config, a: Account, events: set<Event>) {
    && (forall e :: e in events ==> Agreeable(cfg, a, e))
    && (forall e, f :: e in events && f in events && e.id == f.id ==> e == f)
  }

  /** What a fresh delivery of `e` adds to the balance when the row holds `plan`. */
  function Gain(cfg: Config, a: Account, plan: string, e: Event): nat {
    if PeriodInvoice(a, e) then Included(if plan != "" then plan else PlanOfInvoice(e.body))
    else if PaidPack(cfg, a, e) then ExtraCredits(cfg, e.body.metadata)
    else 0
  }

  function PlanAfter(cfg: Config, a: Account, plan: string, e: Event): string {
    if !ForOrg(cfg, a, e) then plan
    else if e.body.SubscriptionDeleted? then ""
    else if e.body.SubscriptionSet? && PlanOfSubscription(cfg, e.body) != "" then PlanOfSubscription(cfg, e.body)
    else plan
  }

  lemma FreshDelivery(cfg: Config, s: Store, a: Account, e: Event)
    requires Settled(s, a) && Agreeable(cfg, a, e) && !e.body.Unhandled? && e.id !in s.seen
    ensures var r := Handled(cfg, s, e);
            && Settled(r.0, a)
            && r.0.orgs[a.org].plan == PlanAfter(cfg, a, s.orgs[a.org].plan, e)
            && Balance(r.0.ledger, a.org) == Balance(s.ledger, a.org) + Gain(cfg, a, s.orgs[a.org].plan, e)
            && (Matters(cfg, a, e) ==> r.1 == Applied)
  {
    match e.body
    case Checkout(_, _, _) => FreshCheckout(cfg, s, a, e);
    case InvoicePaid(_, _, _, _) => FreshInvoice(cfg, s, a, e);
    case _ =>
  }

  lemma FreshInvoice(cfg: Config, s: Store, a: Account, e: Event)
    requires Settled(s, a) && Agreeable(cfg, a, e) && e.body.InvoicePaid? && e.id !in s.seen
    ensures var r := Handled(cfg, s, e);
            && r.1 == Applied && r.0.orgs == s.orgs
            && Balance(r.0.ledger, a.org) == Balance(s.ledger, a.org) + Gain(cfg, a, s.orgs[a.org].plan, e)
  {
    var claimed := s.(seen := s.seen + {e.id});
    var customer := IdOf(e.body.customer);
    if CarriesAllowance(e.body.reason) && customer != "" {
      var o := OwnerOf(claimed.orgs, customer);
      if o.Some? {
        var plan := if s.orgs[o.value].plan != "" then s.orgs[o.value].plan else PlanOfInvoice(e.body);
        BalanceOfAppend(s.ledger, Entry(None, o.value, GrantEntry, Included(plan), "plan allowance", 0), a.org);
      }
      assert Strip(customer) == a.customer ==> a.org in Owners(claimed.orgs, customer);
      assert o.Some? && o.value == a.org ==> Strip(customer) == a.customer;
    }
  }

  lemma FreshCheckout(cfg: Config, s: Store, a: Account, e: Event)
    requires Settled(s, a) && Agreeable(cfg, a, e) && e.body.Checkout? && e.id !in s.seen
    ensures var r := Handled(cfg, s, e);
            && Settled(r.0, a)
            && r.0.orgs[a.org].plan == s.orgs[a.org].plan
            && Balance(r.0.ledger, a.org) == Balance(s.ledger, a.org) + Gain(cfg, a, s.orgs[a.org].plan, e)
            && (Matters(cfg, a, e) ==> r.1 == Applied)
  {
    var claimed := s.(seen := s.seen + {e.id});
    var org := OrganizationOf(cfg, e.body.metadata);
    if Paid(e.body.paymentStatus) && org.Some? {
      var customer := IdOf(e.body.customer);
      if org.value == a.org && customer != "" {
        assert Owners(claimed.orgs, customer) - {a.org} == {};
        assert claimed.orgs[a.org := claimed.orgs[a.org].(customer := Some(a.customer))] == claimed.orgs;
      }
      BalanceOfAppend(s.ledger,
          Entry(None, org.value, GrantEntry, ExtraCredits(cfg, e.body.metadata), "extra credits", 0), a.org);
    }
  }

  // ---- sums over distinct events ----------------------------------------------------------------

  ghost function SumOf(events: set<Event>, worth: Event -> nat): nat {
    if events == {} then 0
    else
      var e :| e in events;
      worth(e) + SumOf(events - {e}, worth)
  }

  lemma {:induction false} SumTakes(events: set<Event>, worth: Event -> nat, e: Event)
    requires e in events
    ensures SumOf(events, worth) == worth(e) + SumOf(events - {e}, worth)
    decreases |events|
  {
    var f :| f in events && SumOf(events, worth) == worth(f) + SumOf(events - {f}, worth);
    if f != e {
      SumTakes(events - {f}, worth, e);
      SumTakes(events - {e}, worth, f);
      assert events - {f} - {e} == events - {e} - {f};
    }
  }

  /** The events of `s` that a delivery sequence newly applies to the account. */
  function NewOnes(cfg: Config, s: Store, a: Account, xs: seq<Event>): set<Event> {
    set e | e in xs && Matters(cfg, a, e) && e.id !in s.seen
  }

  /** One distinct worth an event: the tier's allowance for a period invoice, `untiered` when the
      invoice names no tier, and the credits of a paid pack. */
  function Worth(cfg: Config, a: Account, untiered: nat): Event -> nat {
    (e: Event) =>
      if PeriodInvoice(a, e) then (if PlanOfInvoice(e.body) == "" then untiered else Included(a.tier))
      else if PaidPack(cfg, a, e) then ExtraCredits(cfg, e.body.metadata)
      else 0
  }

  // ---- when order cannot matter -----------------------------------------------------------------

  /** Every period invoice names the tier itself, or the row's tier can never change. */
  ghost predicate OrderFree(cfg: Config, s: Store, a: Account, events: set<Event>)
    requires a.org in s.orgs
  {
    var unseen := set e | e in events && e.id !in s.seen;
    || (forall e :: e in unseen && PeriodInvoice(a, e) ==> PlanOfInvoice(e.body) != "")
    || (s.orgs[a.org].plan == ""
        && forall e :: e in unseen && ForOrg(cfg, a, e) && e.body.SubscriptionSet? ==>
            PlanOfSubscription(cfg, e.body) == "")
    || (s.orgs[a.org].plan == a.tier
        && forall e :: e in unseen && ForOrg(cfg, a, e) ==> !e.body.SubscriptionDeleted?)
  }

  /** The row's tier before and during any sequence, where it cannot change. */
  ghost predicate TierHolds(cfg: Config, s: Store, a: Account, events: set<Event>, plan: string)
    requires a.org in s.orgs
  {
    var unseen := set e | e in events && e.id !in s.seen;
    (exists e :: e in unseen && PeriodInvoice(a, e) && PlanOfInvoice(e.body) == "") ==> plan == s.orgs[a.org].plan
  }

  /** `r` is what `xs` makes of `s`, as far as the account can tell. */
  ghost predicate Accounted(cfg: Config, s: Store, a: Account, events: set<Event>, xs: seq<Event>, r: Store)
    requires a.org in s.orgs
  {
    && Settled(r, a) && s.seen <= r.seen
    && TierHolds(cfg, s, a, events, r.orgs[a.org].plan)
    && (forall e :: e in events && Matters(cfg, a, e) ==> (e.id in r.seen <==> e.id in s.seen || e in xs))
    && Balance(r.ledger, a.org)
       == Balance(s.ledger, a.org) + SumOf(NewOnes(cfg, s, a, xs), Worth(cfg, a, Included(s.orgs[a.org].plan)))
  }

  ghost predicate Posed(cfg: Config, s: Store, a: Account, events: set<Event>) {
    Settled(s, a) && a.tier != "" && AllAgreeable(cfg, a, events)
  }

  lemma RepeatedStep(cfg: Config, s: Store, a: Account, events: set<Event>, front: seq<Event>, before: Store, e: Event)
    requires Posed(cfg, s, a, events) && Accounted(cfg, s, a, events, front, before)
    requires e in events && (forall f :: f in front ==> f in events)
    requires e.body.Unhandled? || e.id in before.seen
    ensures Accounted(cfg, s, a, events, front + [e], Handled(cfg, before, e).0)
  {
    assert NewOnes(cfg, s, a, front + [e]) == NewOnes(cfg, s, a, front);
  }

  lemma NewOnesGrow(cfg: Config, s: Store, a: Account, front: seq<Event>, e: Event, w: Event -> nat)
    requires e.id !in s.seen && (Matters(cfg, a, e) ==> e !in front) && (!Matters(cfg, a, e) ==> w(e) == 0)
    ensures SumOf(NewOnes(cfg, s, a, front + [e]), w) == SumOf(NewOnes(cfg, s, a, front), w) + w(e)
  {
    if Matters(cfg, a, e) {
      assert NewOnes(cfg, s, a, front + [e]) - {e} == NewOnes(cfg, s, a, front);
      SumTakes(NewOnes(cfg, s, a, front + [e]), w, e);
    } else {
      assert NewOnes(cfg, s, a, front + [e]) == NewOnes(cfg, s, a, front);
    }
  }

  /** What a fresh event is worth does not depend on when it arrives. */
  lemma GainIsWorth(cfg: Config, s: Store, a: Account, events: set<Event>, plan: string, e: Event)
    requires Posed(cfg, s, a, events) && OrderFree(cfg, s, a, events) && TierHolds(cfg, s, a, events, plan)
    requires e in events && e.id !in s.seen && (plan == "" || plan == a.tier)
    ensures Gain(cfg, a, plan, e) == Worth(cfg, a, Included(s.orgs[a.org].plan))(e)
    ensures TierHolds(cfg, s, a, events, PlanAfter(cfg, a, plan, e))
  {
    assert Included("") == 0;
    assert e in set f | f in events && f.id !in s.seen;
  }

  lemma FreshStep(cfg: Config, s: Store, a: Account, events: set<Event>, front: seq<Event>, before: Store, e: Event)
    requires Posed(cfg, s, a, events) && OrderFree(cfg, s, a, events) && Accounted(cfg, s, a, events, front, before)
    requires e in events && !e.body.Unhandled? && e.id !in before.seen
    ensures Accounted(cfg, s, a, events, front + [e], Handled(cfg, before, e).0)
  {
    FreshDelivery(cfg, before, a, e);
    HandledOnlyAddsIds(cfg, before, e);
    GainIsWorth(cfg, s, a, events, before.orgs[a.org].plan, e);
    NewOnesGrow(cfg, s, a, front, e, Worth(cfg, a, Included(s.orgs[a.org].plan)));
    SeenGrows(cfg, s, a, events, front, before, e);
  }

  lemma SeenGrows(cfg: Config, s: Store, a: Account, events: set<Event>, front: seq<Event>, before: Store, e: Event)
    requires Posed(cfg, s, a, events) && Accounted(cfg, s, a, events, front, before)
    requires e in events && !e.body.Unhandled? && e.id !in before.seen
    ensures forall f :: f in events && Matters(cfg, a, f) ==>
              (f.id in Handled(cfg, before, e).0.seen <==> f.id in s.seen || f in front + [e])
  {
    HandledOnlyAddsIds(cfg, before, e);
    if Matters(cfg, a, e) {
      FreshDelivery(cfg, before, a, e);
    }
  }

  lemma {:induction false} BalanceIsSum(cfg: Config, s: Store, a: Account, events: set<Event>, xs: seq<Event>)
    requires Posed(cfg, s, a, events) && OrderFree(cfg, s, a, events)
    requires forall e :: e in xs ==> e in events
    ensures Accounted(cfg, s, a, events, xs, Delivered(cfg, s, xs))
  {
    if xs == [] {
      assert NewOnes(cfg, s, a, xs) == {};
    } else {
      var n := |xs| - 1;
      var front, e := xs[..n], xs[n];
      assert xs == front + [e];
      BalanceIsSum(cfg, s, a, events, front);
      var before := Delivered(cfg, s, front);
      if e.body.Unhandled? || e.id in before.seen {
        RepeatedStep(cfg, s, a, events, front, before, e);
      } else {
        FreshStep(cfg, s, a, events, front, before, e);
      }
    }
  }

  /** `xs` delivers exactly these events, in some order and some of them repeatedly. */
  ghost predicate Lists(xs: seq<Event>, events: set<Event>) {
    forall e :: e in xs <==> e in events
  }

  // ---- when order does matter -------------------------------------------------------------------

  /** Two stores that differ only in their ledgers. */
  ghost predicate SameRows(s: Store, t: Store) {
    s.seen == t.seen && s.orgs == t.orgs
  }

  /** The same event made the same entry of both ledgers, or none. */
  ghost predicate InStep(s: Store, x: Store, t: Store, y: Store) {
    && SameRows(x, y)
    && ((x.ledger == s.ledger && y.ledger == t.ledger)
        || (exists e :: x.ledger == s.ledger + [e] && y.ledger == t.ledger + [e]))
  }

  lemma GrantsInStep(s: Store, t: Store, o: nat, amount: int, reason: string)
    requires SameRows(s, t)
    ensures Granted(s, o, amount, reason).Some? == Granted(t, o, amount, reason).Some?
    ensures Granted(s, o, amount, reason).Some? ==>
              InStep(s, Granted(s, o, amount, reason).value, t, Granted(t, o, amount, reason).value)
  {
  }

  lemma BodiesInStep(cfg: Config, s: Store, t: Store, b: Body)
    requires CustomersUnique(s.orgs) && SameRows(s, t)
    ensures BodyApplied(cfg, s, b).Some? == BodyApplied(cfg, t, b).Some?
    ensures BodyApplied(cfg, s, b).Some? ==> InStep(s, BodyApplied(cfg, s, b).value, t, BodyApplied(cfg, t, b).value)
  {
    match b
    case Checkout(_, _, _) =>
      var org := OrganizationOf(cfg, b.metadata);
      if Paid(b.paymentStatus) && org.Some? {
        if IdOf(b.customer) == "" {
          GrantsInStep(s, t, org.value, ExtraCredits(cfg, b.metadata), "extra credits");
        } else {
          var x, y := Attached(s, org.value, IdOf(b.customer)), Attached(t, org.value, IdOf(b.customer));
          if x.Some? {
            GrantsInStep(x.value, y.value, org.value, ExtraCredits(cfg, b.metadata), "extra credits");
          }
        }
      }
    case InvoicePaid(_, _, _, _) =>
      if CarriesAllowance(b.reason) && IdOf(b.customer) != "" {
        var o := OwnerOf(s.orgs, IdOf(b.customer));
        if o.Some? {
          var plan := if s.orgs[o.value].plan != "" then s.orgs[o.value].plan else PlanOfInvoice(b);
          GrantsInStep(s, t, o.value, Included(plan), "plan allowance");
        }
      }
    case _ =>
  }

  /** The ledger never decides what a delivery does. */
  lemma {:induction false} LedgerIsWriteOnly(cfg: Config, s: Store, t: Store, e: Event, org: nat)
    requires CustomersUnique(s.orgs) && SameRows(s, t)
    ensures var x, y := Handled(cfg, s, e).0, Handled(cfg, t, e).0;
            && SameRows(x, y)
            && Balance(x.ledger, org) - Balance(s.ledger, org) == Balance(y.ledger, org) - Balance(t.ledger, org)
  {
    var cs, ct := s.(seen := s.seen + {e.id}), t.(seen := t.seen + {e.id});
    BodiesInStep(cfg, cs, ct, e.body);
    var x, y := Handled(cfg, s, e).0, Handled(cfg, t, e).0;
    if x.ledger != s.ledger || y.ledger != t.ledger {
      var entry :| x.ledger == s.ledger + [entry] && y.ledger == t.ledger + [entry];
      BalanceOfAppend(s.ledger, entry, org);
      BalanceOfAppend(t.ledger, entry, org);
    }
  }

  lemma {:induction false} DifferenceStays(cfg: Config, s: Store, t: Store, xs: seq<Event>, org: nat)
    requires CustomersUnique(s.orgs) && SameRows(s, t)
    ensures var x, y := Delivered(cfg, s, xs), Delivered(cfg, t, xs);
            && SameRows(x, y)
            && Balance(x.ledger, org) - Balance(s.ledger, org) == Balance(y.ledger, org) - Balance(t.ledger, org)
  {
    if xs != [] {
      DifferenceStays(cfg, s, t, xs[..|xs| - 1], org);
      LedgerIsWriteOnly(cfg, Delivered(cfg, s, xs[..|xs| - 1]), Delivered(cfg, t, xs[..|xs| - 1]), xs[|xs| - 1], org);
    }
  }

  lemma {:induction false} DeliveredOnwards(cfg: Config, s: Store, xs: seq<Event>, ys: seq<Event>)
    requires CustomersUnique(s.orgs)
    ensures Delivered(cfg, s, xs + ys) == Delivered(cfg, Delivered(cfg, s, xs), ys)
  {
    if ys == [] {
      assert xs + ys == xs;
    } else {
      var n := |ys| - 1;
      assert (xs + ys)[..|xs + ys| - 1] == xs + ys[..n];
      DeliveredOnwards(cfg, s, xs, ys[..n]);
    }
  }

  /** An invoice that names no tier, before or after an event that sets or clears the row's tier. */
  ghost predicate TierRace(cfg: Config, s: Store, a: Account, u: Event, v: Event)
    requires a.org in s.orgs
  {
    && u.id !in s.seen && v.id !in s.seen && u.id != v.id
    && PeriodInvoice(a, u) && PlanOfInvoice(u.body) == "" && ForOrg(cfg, a, v)
    && (if s.orgs[a.org].plan == "" then v.body.SubscriptionSet? && PlanOfSubscription(cfg, v.body) == a.tier
        else v.body.SubscriptionDeleted?)
  }

  lemma {:induction false} DeliveredTwo(cfg: Config, s: Store, e: Event, f: Event)
    requires CustomersUnique(s.orgs)
    ensures Delivered(cfg, s, [e, f]) == Handled(cfg, Handled(cfg, s, e).0, f).0
  {
    assert [e, f][..1] == [e] && [e][..0] == [];
    assert Delivered(cfg, s, [e]) == Handled(cfg, s, e).0;
  }

  /** A subscription event decides the rows from the rows alone. */
  lemma RowsFromRows(cfg: Config, s: Store, t: Store, v: Event)
    requires CustomersUnique(s.orgs) && s.orgs == t.orgs && v.id !in s.seen && v.id !in t.seen
    requires v.body.SubscriptionSet? || v.body.SubscriptionDeleted?
    ensures Handled(cfg, s, v).0.orgs == Handled(cfg, t, v).0.orgs
    ensures Handled(cfg, s, v).0.seen == s.seen + {v.id}
  {
  }

  /** What the untiered invoice pays in each order. */
  lemma RaceGains(cfg: Config, s: Store, a: Account, u: Event, v: Event)
    requires Settled(s, a) && a.tier in PLANS && Agreeable(cfg, a, u) && Agreeable(cfg, a, v)
    requires TierRace(cfg, s, a, u, v)
    ensures var plan := s.orgs[a.org].plan;
            Gain(cfg, a, plan, u) + Gain(cfg, a, plan, v)
                != Gain(cfg, a, plan, v) + Gain(cfg, a, PlanAfter(cfg, a, plan, v), u)
    ensures Gain(cfg, a, s.orgs[a.org].plan, v) == 0
  {
    TierIncludes(a.tier);
  }

  /** The two orders of such a pair differ by one allowance, and in nothing else. */
  lemma {:induction false} RaceMatters(cfg: Config, s: Store, a: Account, u: Event, v: Event)
    requires Settled(s, a) && a.tier in PLANS && Agreeable(cfg, a, u) && Agreeable(cfg, a, v)
    requires TierRace(cfg, s, a, u, v)
    ensures var x, y := Delivered(cfg, s, [u, v]), Delivered(cfg, s, [v, u]);
            SameRows(x, y) && Balance(x.ledger, a.org) != Balance(y.ledger, a.org)
  {
    DeliveredTwo(cfg, s, u, v);
    DeliveredTwo(cfg, s, v, u);
    var su, sv := Handled(cfg, s, u).0, Handled(cfg, s, v).0;
    FreshInvoice(cfg, s, a, u);
    FreshDelivery(cfg, s, a, v);
    RowsFromRows(cfg, s, su, v) by { HandledOnlyAddsIds(cfg, s, u); }
    RowsFromRows(cfg, su, s, v);
    FreshDelivery(cfg, su, a, v);
    FreshInvoice(cfg, sv, a, u);
    RaceGains(cfg, s, a, u, v);
    InvoiceClaims(cfg, s, u);
    InvoiceClaims(cfg, sv, u);
  }

  lemma InvoiceClaims(cfg: Config, s: Store, u: Event)
    requires CustomersUnique(s.orgs) && u.body.InvoicePaid? && u.id !in s.seen && Handled(cfg, s, u).1 == Applied
    ensures Handled(cfg, s, u).0.seen == s.seen + {u.id}
  {
  }

  lemma TierIncludes(tier: string)
    requires tier in PLANS
    ensures Included(tier) > 0 && Included("") == 0
  {
    StripTrimmed(tier);
    LowerFixes(tier);
  }

  lemma {:induction false} ListingExists(events: set<Event>) returns (xs: seq<Event>)
    ensures Lists(xs, events)
    decreases events
  {
    if events == {} {
      xs := [];
    } else {
      var e :| e in events;
      var rest := ListingExists(events - {e});
      xs := rest + [e];
    }
  }

  /** Without one of the three ways to be order free, some pair of the events races. */
  lemma RaceExists(cfg: Config, s: Store, a: Account, events: set<Event>) returns (u: Event, v: Event)
    requires Posed(cfg, s, a, events) && !OrderFree(cfg, s, a, events)
    ensures u in events && v in events && TierRace(cfg, s, a, u, v)
  {
    var unseen := set e | e in events && e.id !in s.seen;
    u :| u in unseen && PeriodInvoice(a, u) && PlanOfInvoice(u.body) == "";
    if s.orgs[a.org].plan == "" {
      v :| v in unseen && ForOrg(cfg, a, v) && v.body.SubscriptionSet? && PlanOfSubscription(cfg, v.body) != "";
    } else {
      v :| v in unseen && ForOrg(cfg, a, v) && v.body.SubscriptionDeleted?;
    }
  }

  /** CONVERGENCE. The final balance is the same for every order and repetition of the events exactly
      when the untiered invoices among them cannot race a change of the row's tier. */
  lemma {:induction false} BalanceConvergesIff(cfg: Config, s: Store, a: Account, events: set<Event>)
    requires Posed(cfg, s, a, events) && a.tier in PLANS
    ensures OrderFree(cfg, s, a, events) <==>
            forall xs, ys :: Lists(xs, events) && Lists(ys, events) ==>
              Balance(Delivered(cfg, s, xs).ledger, a.org) == Balance(Delivered(cfg, s, ys).ledger, a.org)
  {
    if OrderFree(cfg, s, a, events) {
      forall xs, ys | Lists(xs, events) && Lists(ys, events)
        ensures Balance(Delivered(cfg, s, xs).ledger, a.org) == Balance(Delivered(cfg, s, ys).ledger, a.org)
      {
        BalanceIsSum(cfg, s, a, events, xs);
        BalanceIsSum(cfg, s, a, events, ys);
        assert NewOnes(cfg, s, a, xs) == NewOnes(cfg, s, a, ys);
      }
    } else {
      var xs, ys := OrdersThatDiffer(cfg, s, a, events);
    }
  }

  lemma OrdersThatDiffer(cfg: Config, s: Store, a: Account, events: set<Event>) returns (xs: seq<Event>, ys: seq<Event>)
    requires Posed(cfg, s, a, events) && a.tier in PLANS && !OrderFree(cfg, s, a, events)
    ensures Lists(xs, events) && Lists(ys, events)
    ensures Balance(Delivered(cfg, s, xs).ledger, a.org) != Balance(Delivered(cfg, s, ys).ledger, a.org)
  {
    var u, v := RaceExists(cfg, s, a, events);
    var rest := ListingExists(events);
    xs, ys := [u, v] + rest, [v, u] + rest;
    RaceMatters(cfg, s, a, u, v);
    DeliveredOnwards(cfg, s, [u, v], rest);
    DeliveredOnwards(cfg, s, [v, u], rest);
    DifferenceStays(cfg, Delivered(cfg, s, [u, v]), Delivered(cfg, s, [v, u]), rest, a.org);
  }

  /** And then it is the balance before, one allowance of the tier for each distinct period invoice,
      and the credits of each distinct paid pack, whatever deletions are mixed in. */
  lemma {:induction false} BalanceWhenInvoicesNameTheTier(cfg: Config, s: Store, a: Account, xs: seq<Event>)
    requires Posed(cfg, s, a, (set e | e in xs))
    requires forall e :: e in xs && PeriodInvoice(a, e) ==> PlanOfInvoice(e.body) == a.tier
    ensures Balance(Delivered(cfg, s, xs).ledger, a.org)
         == Balance(s.ledger, a.org) + SumOf(NewOnes(cfg, s, a, xs), Worth(cfg, a, Included(a.tier)))
  {
    var events := set e | e in xs;
    BalanceIsSum(cfg, s, a, events, xs);
    SumsAgree(NewOnes(cfg, s, a, xs), Worth(cfg, a, Included(s.orgs[a.org].plan)), Worth(cfg, a, Included(a.tier)));
  }

  lemma {:induction false} SumsAgree(events: set<Event>, v: Event -> nat, w: Event -> nat)
    requires forall e :: e in events ==> v(e) == w(e)
    ensures SumOf(events, v) == SumOf(events, w)
    decreases |events|
  {
    if events != {} {
      var e :| e in events;
      SumTakes(events, v, e);
      SumTakes(events, w, e);
      SumsAgree(events - {e}, v, w);
    }
  }
}
