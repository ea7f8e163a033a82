/** src/meshpipeline/application/billing_service.py: what a delivered billing event does to plans and
    to the credit ledger. The provider delivers at least once and in any order. */
module Billing {
  import opened Wrappers
  import opened Text
  import opened Credits

  // ---- events -----------------------------------------------------------------------------------

  /** A reference to a provider object: absent, its id, or the object itself. */
  datatype Reference = Missing | Id(id: string) | Expanded(id: string)

  datatype Item = Item(price: string, usage: string)

  datatype Body =
    | Checkout(paymentStatus: string, metadata: map<string, string>, customer: Reference)
    | SubscriptionSet(id: string, metadata: map<string, string>, items: seq<Item>, status: string)
    | SubscriptionDeleted(metadata: map<string, string>)
    | InvoicePaid(reason: string, customer: Reference, details: Option<map<string, string>>,
        oldDetails: Option<map<string, string>>)
    | PaymentFailed
    | Unhandled

  datatype Event = Event(id: string, body: Body)

  /** The prices configured for this deployment, and the two parsers of the standard library. */
  datatype Config = Config(priceOf: string -> string, parseUuid: string -> Option<nat>, parseInt: string -> Option<int>)

  datatype Organization = Organization(plan: string, customer: Option<string>, subscription: string, status: string)

  datatype Store = Store(seen: set<string>, orgs: map<nat, Organization>, ledger: seq<Entry>)

  datatype Outcome = Ignored | Duplicate | Applied | Failed

  const PLANS := ["starter", "team", "enterprise"]

  /** Credits a tier includes each period; a tier this catalogue does not declare includes none. */
  function Included(plan: string): nat {
    var name := Lower(Strip(plan));
    if name == "starter" then 1000 else if name == "team" then 10000 else if name == "enterprise" then 100000 else 0
  }

  // ---- reading a payload ------------------------------------------------------------------------

  function Field(metadata: map<string, string>, key: string): string {
    if key in metadata then metadata[key] else ""
  }

  function IdOf(r: Reference): string {
    if r.Missing? then "" else r.id
  }

  function OrganizationOf(cfg: Config, metadata: map<string, string>): Option<nat> {
    var raw := Strip(Field(metadata, "organization_id"));
    if raw == "" then None else cfg.parseUuid(raw)
  }

  function TierNamed(metadata: map<string, string>): (plan: string)
    ensures plan == "" || plan in PLANS
  {
    var plan := Lower(Strip(Field(metadata, "plan")));
    if plan in PLANS then plan else ""
  }

  /** Current API versions first, then the older spelling. */
  function PlanOfInvoice(b: Body): (plan: string)
    requires b.InvoicePaid?
    ensures plan == "" || plan in PLANS
  {
    var current := if b.details.Some? then TierNamed(b.details.value) else "";
    if current != "" then current
    else if b.oldDetails.Some? then TierNamed(b.oldDetails.value) else ""
  }

  function PlanOfPrice(cfg: Config, price: string, plans: seq<string>): (plan: string)
    ensures plan == "" || plan in plans
  {
    if plans == [] then ""
    else if cfg.priceOf(plans[0]) != "" && Strip(price) == cfg.priceOf(plans[0]) then plans[0]
    else PlanOfPrice(cfg, price, plans[1..])
  }

  /** The first licensed price this deployment sells, else the metadata. */
  function PlanOfItems(cfg: Config, items: seq<Item>): (plan: string)
    ensures plan == "" || plan in PLANS
  {
    if items == [] then ""
    else
      var plan := if items[0].usage == "metered" then "" else PlanOfPrice(cfg, items[0].price, PLANS);
      if plan != "" then plan else PlanOfItems(cfg, items[1..])
  }

  function PlanOfSubscription(cfg: Config, b: Body): (plan: string)
    requires b.SubscriptionSet?
    ensures plan == "" || plan in PLANS
  {
    var plan := PlanOfItems(cfg, b.items);
    if plan != "" then plan else TierNamed(b.metadata)
  }

  function ExtraCredits(cfg: Config, metadata: map<string, string>): nat {
    if Field(metadata, "credit_pack") != "one_off" then 0
    else
      var amount := cfg.parseInt(Strip(if "total_credits" in metadata then metadata["total_credits"] else "0"));
      if amount.Some? && amount.value > 0 then amount.value else 0
  }

  predicate Paid(status: string) {
    status == "paid" || status == "no_payment_required"
  }

  predicate CarriesAllowance(reason: string) {
    Strip(reason) == "subscription_create" || Strip(reason) == "subscription_cycle"
  }

  // ---- what one event does ----------------------------------------------------------------------

  /** The unique index on `stripe_customer_id`. */
  ghost predicate CustomersUnique(orgs: map<nat, Organization>) {
    forall o, w :: o in orgs && w in orgs && o != w && orgs[o].customer.Some? ==> orgs[o].customer != orgs[w].customer
  }

  function Owners(orgs: map<nat, Organization>, customer: string): set<nat> {
    set o | o in orgs && orgs[o].customer == Some(Strip(customer))
  }

  /** `None` when the unique index refuses: another organisation holds the customer. */
  function Attached(s: Store, o: nat, customer: string): (r: Option<Store>)
    ensures CustomersUnique(s.orgs) && r.Some? ==> CustomersUnique(r.value.orgs)
  {
    if o !in s.orgs then Some(s)
    else if Owners(s.orgs, customer) - {o} != {} then None
    else
      assert forall w :: w in s.orgs && w != o && s.orgs[w].customer == Some(Strip(customer)) ==>
          w in Owners(s.orgs, customer) - {o};
      Some(s.(orgs := s.orgs[o := s.orgs[o].(customer := Some(Strip(customer)))]))
  }

  /** `None` when the ledger's foreign key refuses: there is no such organisation. */
  function Granted(s: Store, o: nat, amount: int, reason: string): Option<Store> {
    if amount <= 0 then Some(s)
    else if o !in s.orgs then None
    else Some(s.(ledger := s.ledger + [Entry(None, o, GrantEntry, amount, reason, 0)]))
  }

  function CheckoutApplied(cfg: Config, s: Store, b: Body): (r: Option<Store>)
    requires b.Checkout?
    ensures CustomersUnique(s.orgs) && r.Some? ==> CustomersUnique(r.value.orgs)
  {
    var org := OrganizationOf(cfg, b.metadata);
    if !Paid(b.paymentStatus) || org.None? then Some(s)
    else
      var attached := if IdOf(b.customer) != "" then Attached(s, org.value, IdOf(b.customer)) else Some(s);
      if attached.None? then None
      else Granted(attached.value, org.value, ExtraCredits(cfg, b.metadata), "extra credits")
  }

  function SubscriptionApplied(cfg: Config, s: Store, b: Body): Store
    requires b.SubscriptionSet? || b.SubscriptionDeleted?
  {
    var org := OrganizationOf(cfg, b.metadata);
    if org.None? || org.value !in s.orgs then s
    else
      var row := s.orgs[org.value];
      s.(orgs := s.orgs[org.value :=
        if b.SubscriptionDeleted? then row.(subscription := "", plan := "", status := "canceled")
        else
          var plan := PlanOfSubscription(cfg, b);
          row.(subscription := Strip(b.id), plan := if plan != "" then plan else row.plan, status := Strip(b.status))])
  }

  function OwnerOf(orgs: map<nat, Organization>, customer: string): (o: Option<nat>)
    requires CustomersUnique(orgs)
    ensures o.Some? ==> o.value in Owners(orgs, customer)
    ensures o.None? ==> Owners(orgs, customer) == {}
  {
    if Owners(orgs, customer) == {} then None
    else
      var o :| o in Owners(orgs, customer);
      Some(o)
  }

  /** The allowance of the period the invoice pays for, to the organisation that owns the customer:
      from the row's tier, or from the invoice when the row has none yet. */
  function InvoiceApplied(s: Store, b: Body): Option<Store>
    requires b.InvoicePaid? && CustomersUnique(s.orgs)
  {
    if !CarriesAllowance(b.reason) || IdOf(b.customer) == "" then Some(s)
    else
      var o := OwnerOf(s.orgs, IdOf(b.customer));
      if o.None? then Some(s)
      else
        var plan := if s.orgs[o.value].plan != "" then s.orgs[o.value].plan else PlanOfInvoice(b);
        Granted(s, o.value, Included(plan), "plan allowance")
  }

  function BodyApplied(cfg: Config, s: Store, b: Body): (r: Option<Store>)
    requires CustomersUnique(s.orgs)
    ensures r.Some? ==> CustomersUnique(r.value.orgs)
  {
    match b
    case Checkout(_, _, _) => CheckoutApplied(cfg, s, b)
    case SubscriptionSet(_, _, _, _) => Some(SubscriptionApplied(cfg, s, b))
    case SubscriptionDeleted(_) => Some(SubscriptionApplied(cfg, s, b))
    case InvoicePaid(_, _, _, _) => InvoiceApplied(s, b)
    case PaymentFailed => Some(s)
    case Unhandled => Some(s)
  }

  /** One delivery: the event id is claimed and the effect applied in one transaction, or neither. */
  function Handled(cfg: Config, s: Store, e: Event): (r: (Store, Outcome))
    requires CustomersUnique(s.orgs)
    ensures CustomersUnique(r.0.orgs)
  {
    if e.body.Unhandled? then (s, Ignored)
    else if e.id in s.seen then (s, Duplicate)
    else
      match BodyApplied(cfg, s.(seen := s.seen + {e.id}), e.body)
      case Some(after) => (after, Applied)
      case None => (s, Failed)
  }

  // ---- the program ------------------------------------------------------------------------------

  class BillingService {
    var seen: set<string>
    var orgs: map<nat, Organization>
    var ledger: seq<Entry>
    const cfg: Config

    ghost function State(): Store
      reads this
    {
      Store(seen, orgs, ledger)
    }

    constructor (cfg: Config, orgs: map<nat, Organization>)
      ensures State() == Store({}, orgs, []) && this.cfg == cfg
    {
      this.cfg := cfg;
      this.orgs := orgs;
      seen := {};
      ledger := [];
    }

    method HandleEvent(e: Event) returns (outcome: Outcome)
      requires CustomersUnique(State().orgs)
      modifies this
      ensures (State(), outcome) == Handled(cfg, old(State()), e)
    {
      if e.body.Unhandled? {
        return Ignored;
      }
      if e.id in seen {
        return Duplicate;
      }
      var savedSeen, savedOrgs, savedLedger := seen, orgs, ledger;
      seen := seen + {e.id};
      var ok := true;
      if e.body.SubscriptionSet? || e.body.SubscriptionDeleted? {
        ApplySubscription(e.body);
      } else if e.body.Checkout? {
        ok := ApplyCheckout(e.body);
      } else if e.body.InvoicePaid? {
        ok := ApplyInvoicePaid(e.body);
      }
      if !ok {
        seen, orgs, ledger := savedSeen, savedOrgs, savedLedger;
        return Failed;
      }
      return Applied;
    }

    method ApplyCheckout(b: Body) returns (ok: bool)
      requires b.Checkout?
      modifies this
      ensures ok == CheckoutApplied(cfg, old(State()), b).Some?
      ensures ok ==> State() == CheckoutApplied(cfg, old(State()), b).value
    {
      if !Paid(b.paymentStatus) {
        return true;
      }
      var org := OrganizationOf(cfg, b.metadata);
      if org.None? {
        return true;
      }
      var customer := IdOf(b.customer);
      if customer != "" {
        ok := AttachCustomer(org.value, customer);
        if !ok {
          return false;
        }
      }
      ok := Grant(org.value, ExtraCredits(cfg, b.metadata), "extra credits");
    }

    method AttachCustomer(o: nat, customer: string) returns (ok: bool)
      modifies this
      ensures ok == Attached(old(State()), o, customer).Some?
      ensures ok ==> State() == Attached(old(State()), o, customer).value
      ensures !ok ==> State() == old(State())
    {
      if o !in orgs {
        return true;
      }
      if exists w :: w in orgs && w != o && orgs[w].customer == Some(Strip(customer)) {
        ghost var w :| w in orgs && w != o && orgs[w].customer == Some(Strip(customer));
        assert w in Owners(State().orgs, customer) - {o};
        return false;
      }
      orgs := orgs[o := orgs[o].(customer := Some(Strip(customer)))];
      return true;
    }

    method Grant(o: nat, amount: int, reason: string) returns (ok: bool)
      modifies this
      ensures ok == Granted(old(State()), o, amount, reason).Some?
      ensures ok ==> State() == Granted(old(State()), o, amount, reason).value
      ensures !ok ==> State() == old(State())
    {
      if amount <= 0 {
        return true;
      }
      if o !in orgs {
        return false;
      }
      ledger := ledger + [Entry(None, o, GrantEntry, amount, reason, 0)];
      return true;
    }

    method ApplySubscription(b: Body)
      requires b.SubscriptionSet? || b.SubscriptionDeleted?
      modifies this
      ensures State() == SubscriptionApplied(cfg, old(State()), b)
    {
      var org := OrganizationOf(cfg, b.metadata);
      if org.None? || org.value !in orgs {
        return;
      }
      var row := orgs[org.value];
      if b.SubscriptionDeleted? {
        row := row.(subscription := "", plan := "", status := "canceled");
      } else {
        var plan := PlanOfSubscription(cfg, b);
        if plan != "" {
          row := row.(plan := plan);
        }
        row := row.(subscription := Strip(b.id), status := Strip(b.status));
      }
      orgs := orgs[org.value := row];
    }

    method ApplyInvoicePaid(b: Body) returns (ok: bool)
      requires b.InvoicePaid? && CustomersUnique(State().orgs)
      modifies this
      ensures ok == InvoiceApplied(old(State()), b).Some?
      ensures ok ==> State() == InvoiceApplied(old(State()), b).value
    {
      if !CarriesAllowance(b.reason) {
        return true;
      }
      var customer := IdOf(b.customer);
      if customer == "" {
        return true;
      }
      var owner := OwnerOf(orgs, customer);
      if owner.None? {
        return true;
      }
      var plan := orgs[owner.value].plan;
      if plan == "" {
        plan := PlanOfInvoice(b);
      }
      ok := Grant(owner.value, Included(plan), "plan allowance");
    }
  }

  // ---- delivery sequences -----------------------------------------------------------------------

  /** All deliveries, in the order they arrive. */
  function Delivered(cfg: Config, s: Store, events: seq<Event>): (r: Store)
    requires CustomersUnique(s.orgs)
    ensures CustomersUnique(r.orgs)
  {
    if events == [] then s
    else Handled(cfg, Delivered(cfg, s, events[..|events| - 1]), events[|events| - 1]).0
  }

  function Ids(events: seq<Event>): (ids: set<string>)
  {
    if events == [] then {} else Ids(events[..|events| - 1]) + {events[|events| - 1].id}
  }

  /** Each event id where it first arrives. */
  function FirstDeliveries(events: seq<Event>): (r: seq<Event>)
    ensures Ids(r) == Ids(events)
  {
    if events == [] then []
    else
      var n := |events| - 1;
      var front := FirstDeliveries(events[..n]);
      if events[n].id in Ids(front) then front
      else
        assert (front + [events[n]])[..|front|] == front;
        front + [events[n]]
  }

  lemma {:induction false} FirstDeliveriesAreDeliveries(events: seq<Event>, e: Event)
    requires e in FirstDeliveries(events)
    ensures e in events
  {
    var n := |events| - 1;
    if e in FirstDeliveries(events[..n]) {
      FirstDeliveriesAreDeliveries(events[..n], e);
    }
  }

  lemma {:induction false} IdOfSome(events: seq<Event>, id: string) returns (e: Event)
    requires id in Ids(events)
    ensures e in events && e.id == id
  {
    var n := |events| - 1;
    if events[n].id == id { e := events[n]; } else { e := IdOfSome(events[..n], id); }
  }

  /** An event id names one event. */
  ghost predicate IdsAgree(events: seq<Event>) {
    forall e, f :: e in events && f in events && e.id == f.id ==> e == f
  }

  /** No delivery of the sequence is refused by the database. */
  ghost predicate AllLand(cfg: Config, s: Store, events: seq<Event>)
    requires CustomersUnique(s.orgs)
  {
    forall k :: 0 <= k < |events| ==> Handled(cfg, Delivered(cfg, s, events[..k]), events[k]).1 != Failed
  }

  lemma {:induction false} LandedIsSeen(cfg: Config, s: Store, events: seq<Event>, e: Event)
    requires CustomersUnique(s.orgs) && AllLand(cfg, s, events) && e in events && !e.body.Unhandled?
    ensures e.id in Delivered(cfg, s, events).seen
  {
    var n := |events| - 1;
    var before := Delivered(cfg, s, events[..n]);
    assert Handled(cfg, before, events[n]).1 != Failed;
    HandledOnlyAddsIds(cfg, before, events[n]);
    if events[n] != e {
      assert events == events[..n] + [events[n]];
      forall k | 0 <= k < n ensures Handled(cfg, Delivered(cfg, s, events[..n][..k]), events[..n][k]).1 != Failed {
        assert events[..n][..k] == events[..k];
      }
      LandedIsSeen(cfg, s, events[..n], e);
    }
  }

  lemma HandledOnlyAddsIds(cfg: Config, s: Store, e: Event)
    requires CustomersUnique(s.orgs)
    ensures s.seen <= Handled(cfg, s, e).0.seen <= s.seen + {e.id}
    ensures !e.body.Unhandled? && Handled(cfg, s, e).1 != Failed ==> e.id in Handled(cfg, s, e).0.seen
  {
  }

  /** A delivery whose id already landed changes nothing. */
  lemma {:induction false} RepeatIsDropped(cfg: Config, s: Store, events: seq<Event>, e: Event)
    requires CustomersUnique(s.orgs) && AllLand(cfg, s, FirstDeliveries(events))
    requires e.id in Ids(FirstDeliveries(events)) && IdsAgree(events + [e])
    ensures var r := Delivered(cfg, s, FirstDeliveries(events)); Handled(cfg, r, e).0 == r
  {
    var f := IdOfSome(FirstDeliveries(events), e.id);
    FirstDeliveriesAreDeliveries(events, f);
    assert f in events + [e] && e in events + [e];
    if !e.body.Unhandled? {
      LandedIsSeen(cfg, s, FirstDeliveries(events), e);
    }
  }

  lemma FrontAgrees(events: seq<Event>)
    requires IdsAgree(events) && events != []
    ensures IdsAgree(events[..|events| - 1])
  {
  }

  lemma LandPrefix(cfg: Config, s: Store, events: seq<Event>, e: Event)
    requires CustomersUnique(s.orgs) && AllLand(cfg, s, events + [e])
    ensures AllLand(cfg, s, events)
  {
    var all := events + [e];
    forall k | 0 <= k < |events| ensures Handled(cfg, Delivered(cfg, s, events[..k]), events[k]).1 != Failed {
      assert all[..k] == events[..k] && all[k] == events[k];
    }
  }

  /** In particular when every first delivery lands. */
  lemma {:induction false} RepeatsOfLandedChangeNothing(cfg: Config, s: Store, events: seq<Event>)
    requires CustomersUnique(s.orgs) && IdsAgree(events) && AllLand(cfg, s, FirstDeliveries(events))
    ensures Delivered(cfg, s, events) == Delivered(cfg, s, FirstDeliveries(events))
  {
    if events != [] {
      var n := |events| - 1;
      assert events == events[..n] + [events[n]];
      FrontAgrees(events);
      if events[n].id in Ids(FirstDeliveries(events[..n])) {
        RepeatsOfLandedChangeNothing(cfg, s, events[..n]);
        RepeatIsDropped(cfg, s, events[..n], events[n]);
      } else {
        LandPrefix(cfg, s, FirstDeliveries(events[..n]), events[n]);
        RepeatsOfLandedChangeNothing(cfg, s, events[..n]);
        DeliveredMore(cfg, s, FirstDeliveries(events[..n]), events[n]);
      }
    }
  }

  lemma {:induction false} DeliveredMore(cfg: Config, s: Store, events: seq<Event>, e: Event)
    requires CustomersUnique(s.orgs)
    ensures Delivered(cfg, s, events + [e]) == Handled(cfg, Delivered(cfg, s, events), e).0
  {
    assert (events + [e])[..|events|] == events;
  }

  lemma {:induction false} SeenStays(cfg: Config, s: Store, events: seq<Event>, i: nat)
    requires CustomersUnique(s.orgs) && i <= |events|
    ensures Delivered(cfg, s, events[..i]).seen <= Delivered(cfg, s, events).seen
    decreases |events|
  {
    if i < |events| {
      var n := |events| - 1;
      SeenStays(cfg, s, events[..n], i);
      assert events[..n][..i] == events[..i];
      HandledOnlyAddsIds(cfg, Delivered(cfg, s, events[..n]), events[n]);
    } else {
      assert events[..i] == events;
    }
  }

  /** Whatever is refused and retried in between, an event id is applied at most once. */
  lemma {:induction false} NoIdAppliesTwice(cfg: Config, s: Store, events: seq<Event>, i: nat, j: nat)
    requires CustomersUnique(s.orgs) && i < j < |events|
    requires Handled(cfg, Delivered(cfg, s, events[..i]), events[i]).1 == Applied
    requires Handled(cfg, Delivered(cfg, s, events[..j]), events[j]).1 == Applied
    ensures events[i].id != events[j].id
  {
    HandledOnlyAddsIds(cfg, Delivered(cfg, s, events[..i]), events[i]);
    assert events[..i + 1][..i] == events[..i];
    assert events[..j][..i + 1] == events[..i + 1];
    SeenStays(cfg, s, events[..j], i + 1);
  }

  // ---- dropping repeats -------------------------------------------------------------------------

  /** The `k`-th delivery repeats the id of an earlier one, and is applied all the same. */
  ghost predicate RepeatApplies(cfg: Config, s: Store, events: seq<Event>, k: nat)
    requires CustomersUnique(s.orgs) && k < |events|
  {
    events[k].id in Ids(events[..k]) && Handled(cfg, Delivered(cfg, s, events[..k]), events[k]).1 == Applied
  }

  ghost predicate NoRepeatApplies(cfg: Config, s: Store, events: seq<Event>)
    requires CustomersUnique(s.orgs)
  {
    forall k :: 0 <= k < |events| ==> !RepeatApplies(cfg, s, events, k)
  }

  lemma PrefixRepeats(cfg: Config, s: Store, events: seq<Event>, n: nat, k: nat)
    requires CustomersUnique(s.orgs) && k < n <= |events|
    ensures RepeatApplies(cfg, s, events[..n], k) <==> RepeatApplies(cfg, s, events, k)
  {
    assert events[..n][..k] == events[..k];
  }

  lemma {:induction false} OneMoreDelivery(cfg: Config, s: Store, events: seq<Event>)
    requires CustomersUnique(s.orgs) && events != []
    ensures Delivered(cfg, s, events)
         == Handled(cfg, Delivered(cfg, s, events[..|events| - 1]), events[|events| - 1]).0
  {
  }

  lemma {:induction false} QuietRepeatStays(cfg: Config, s: Store, events: seq<Event>)
    requires CustomersUnique(s.orgs) && events != [] && !RepeatApplies(cfg, s, events, |events| - 1)
    requires events[|events| - 1].id in Ids(events[..|events| - 1])
    ensures Delivered(cfg, s, events) == Delivered(cfg, s, events[..|events| - 1])
  {
    OneMoreDelivery(cfg, s, events);
  }

  lemma {:induction false} QuietRepeatsChangeNothing(cfg: Config, s: Store, events: seq<Event>)
    requires CustomersUnique(s.orgs) && NoRepeatApplies(cfg, s, events)
    ensures Delivered(cfg, s, events) == Delivered(cfg, s, FirstDeliveries(events))
  {
    if events != [] {
      var n := |events| - 1;
      var front := FirstDeliveries(events[..n]);
      forall k | 0 <= k < n ensures !RepeatApplies(cfg, s, events[..n], k) {
        PrefixRepeats(cfg, s, events, n, k);
      }
      QuietRepeatsChangeNothing(cfg, s, events[..n]);
      if events[n].id in Ids(front) {
        QuietRepeatStays(cfg, s, events);
      } else {
        OneMoreDelivery(cfg, s, events);
        DeliveredMore(cfg, s, front, events[n]);
      }
    }
  }

  /** Past a prefix, first deliveries are first deliveries of other ids. */
  lemma {:induction false} FirstDeliveriesExtend(events: seq<Event>, k: nat) returns (rest: seq<Event>)
    requires k <= |events|
    ensures FirstDeliveries(events) == FirstDeliveries(events[..k]) + rest && Ids(rest) !! Ids(events[..k])
  {
    if k == |events| {
      rest := [];
      assert events[..k] == events;
    } else {
      var n := |events| - 1;
      assert events[..n][..k] == events[..k];
      rest := FirstDeliveriesExtend(events[..n], k);
      if events[n].id !in Ids(FirstDeliveries(events[..n])) {
        assert (rest + [events[n]])[..|rest|] == rest;
        IdsOfPrefix(events[..n], k);
        rest := rest + [events[n]];
      }
    }
  }

  lemma {:induction false} IdsOfPrefix(events: seq<Event>, k: nat)
    requires k <= |events|
    ensures Ids(events[..k]) <= Ids(events)
  {
    if k < |events| {
      assert events[..|events| - 1][..k] == events[..k];
      IdsOfPrefix(events[..|events| - 1], k);
    } else {
      assert events[..k] == events;
    }
  }

  lemma {:induction false} OnlyDeliveredIdsAreSeen(cfg: Config, s: Store, a: seq<Event>, rest: seq<Event>)
    requires CustomersUnique(s.orgs)
    ensures Delivered(cfg, s, a + rest).seen <= Delivered(cfg, s, a).seen + Ids(rest)
  {
    if rest == [] {
      assert a + rest == a;
    } else {
      var n := |rest| - 1;
      assert (a + rest)[..|a| + n] == a + rest[..n];
      OnlyDeliveredIdsAreSeen(cfg, s, a, rest[..n]);
      HandledOnlyAddsIds(cfg, Delivered(cfg, s, a + rest[..n]), rest[n]);
    }
  }

  /** The first repeat that is applied claims an id that the first deliveries never claim. */
  lemma {:induction false} AppliedRepeatShows(cfg: Config, s: Store, events: seq<Event>, k: nat)
    requires CustomersUnique(s.orgs) && k < |events| && RepeatApplies(cfg, s, events, k)
    requires NoRepeatApplies(cfg, s, events[..k])
    ensures events[k].id in Delivered(cfg, s, events).seen
    ensures events[k].id !in Delivered(cfg, s, FirstDeliveries(events)).seen
  {
    var before := Delivered(cfg, s, events[..k]);
    HandledOnlyAddsIds(cfg, before, events[k]);
    assert events[..k + 1][..k] == events[..k];
    SeenStays(cfg, s, events, k + 1);
    QuietRepeatsChangeNothing(cfg, s, events[..k]);
    var rest := FirstDeliveriesExtend(events, k);
    OnlyDeliveredIdsAreSeen(cfg, s, FirstDeliveries(events[..k]), rest);
  }

  lemma {:induction false} FirstAppliedRepeat(cfg: Config, s: Store, events: seq<Event>, n: nat) returns (k: nat)
    requires CustomersUnique(s.orgs) && n < |events| && RepeatApplies(cfg, s, events, n)
    ensures k < |events| && RepeatApplies(cfg, s, events, k) && NoRepeatApplies(cfg, s, events[..k])
  {
    if j :| 0 <= j < n && RepeatApplies(cfg, s, events[..n], j) {
      PrefixRepeats(cfg, s, events, n, j);
      k := FirstAppliedRepeat(cfg, s, events, j);
    } else {
      k := n;
    }
  }

  /** EXACTLY ONCE, EXACTLY WHEN. Dropping the repeats of event ids leaves the same rows, the same ledger
      and the same claimed ids if and only if no repeat is applied. */
  lemma {:induction false} RepeatsChangeNothingIff(cfg: Config, s: Store, events: seq<Event>)
    requires CustomersUnique(s.orgs)
    ensures Delivered(cfg, s, events) == Delivered(cfg, s, FirstDeliveries(events)) <==> NoRepeatApplies(cfg, s, events)
  {
    if NoRepeatApplies(cfg, s, events) {
      QuietRepeatsChangeNothing(cfg, s, events);
    } else {
      var n :| 0 <= n < |events| && RepeatApplies(cfg, s, events, n);
      var k := FirstAppliedRepeat(cfg, s, events, n);
      AppliedRepeatShows(cfg, s, events, k);
    }
  }

  // ---- what a batch can promise beforehand --------------------------------------------------------

  /** A paid checkout that names its organisation's customer. */
  predicate NamesCustomer(cfg: Config, e: Event) {
    && e.body.Checkout? && Paid(e.body.paymentStatus)
    && OrganizationOf(cfg, e.body.metadata).Some? && IdOf(e.body.customer) != ""
  }

  function Payer(cfg: Config, e: Event): nat
    requires NamesCustomer(cfg, e)
  {
    OrganizationOf(cfg, e.body.metadata).value
  }

  function Customer(cfg: Config, e: Event): string
    requires NamesCustomer(cfg, e)
  {
    Strip(IdOf(e.body.customer))
  }

  /** Each organisation is named with one customer: by the paid checkouts of the batch, and by its row
      if the row has one. */
  ghost predicate OneCustomerEach(cfg: Config, orgs: map<nat, Organization>, events: seq<Event>) {
    && (forall e, f :: e in events && f in events && NamesCustomer(cfg, e) && NamesCustomer(cfg, f) ==>
          (Payer(cfg, e) == Payer(cfg, f) ==> Customer(cfg, e) == Customer(cfg, f)))
    && (forall e :: e in events && NamesCustomer(cfg, e) && Payer(cfg, e) in orgs ==>
          (orgs[Payer(cfg, e)].customer.Some? ==> orgs[Payer(cfg, e)].customer == Some(Customer(cfg, e))))
  }

  /** The same organisations, each still with the customer it had. */
  ghost predicate KeepsCustomers(before: map<nat, Organization>, after: map<nat, Organization>) {
    && before.Keys == after.Keys
    && (forall o :: o in before && before[o].customer.Some? ==> after[o].customer == before[o].customer)
  }

  /** A checkout is refused in two cases only: another organisation holds the customer it names for an
      organisation that exists, or it buys credits for one that does not. */
  predicate Refused(cfg: Config, orgs: map<nat, Organization>, b: Body)
    requires b.Checkout?
  {
    var org := OrganizationOf(cfg, b.metadata);
    && Paid(b.paymentStatus) && org.Some?
    && (if org.value in orgs then IdOf(b.customer) != "" && Owners(orgs, IdOf(b.customer)) - {org.value} != {}
        else ExtraCredits(cfg, b.metadata) > 0)
  }

  function CustomerAfter(cfg: Config, s: Store, e: Event, o: nat): Option<string>
    requires CustomersUnique(s.orgs) && o in s.orgs
  {
    if Handled(cfg, s, e).1 == Applied && NamesCustomer(cfg, e) && Payer(cfg, e) == o
    then Some(Customer(cfg, e)) else s.orgs[o].customer
  }

  /** Every delivery of every kind lands except a checkout that is refused, which leaves the store
      alone; and one that lands moves no customer but its own organisation's, to the one it names. */
  lemma LandsIff(cfg: Config, s: Store, e: Event)
    requires CustomersUnique(s.orgs)
    ensures var (after, outcome) := Handled(cfg, s, e);
      && (outcome == Failed <==> e.id !in s.seen && e.body.Checkout? && Refused(cfg, s.orgs, e.body))
      && (outcome != Applied ==> after == s)
      && after.orgs.Keys == s.orgs.Keys
      && (forall o :: o in s.orgs ==> after.orgs[o].customer == CustomerAfter(cfg, s, e, o))
  {
    if e.body.Checkout? && Paid(e.body.paymentStatus) && OrganizationOf(cfg, e.body.metadata).Some? {
      CheckoutLandsIff(cfg, s.(seen := s.seen + {e.id}), e.body);
    }
  }

  lemma CheckoutLandsIff(cfg: Config, s: Store, b: Body)
    requires CustomersUnique(s.orgs) && b.Checkout? && Paid(b.paymentStatus) && OrganizationOf(cfg, b.metadata).Some?
    ensures CheckoutApplied(cfg, s, b).None? <==> Refused(cfg, s.orgs, b)
    ensures CheckoutApplied(cfg, s, b).Some? ==>
      var o, after := OrganizationOf(cfg, b.metadata).value, CheckoutApplied(cfg, s, b).value;
      && after.seen == s.seen
      && after.orgs == if o in s.orgs && IdOf(b.customer) != ""
                       then s.orgs[o := s.orgs[o].(customer := Some(Strip(IdOf(b.customer))))] else s.orgs
  {
  }

  lemma StepKeepsCustomers(cfg: Config, s: Store, events: seq<Event>, e: Event)
    requires CustomersUnique(s.orgs) && OneCustomerEach(cfg, s.orgs, events) && e in events
    ensures var after := Handled(cfg, s, e).0;
      KeepsCustomers(s.orgs, after.orgs) && OneCustomerEach(cfg, after.orgs, events)
  {
    LandsIff(cfg, s, e);
  }

  /** What is refused stays refused while customers stay where they are. */
  lemma RefusedStaysRefused(cfg: Config, s: Store, t: Store, e: Event)
    requires CustomersUnique(s.orgs) && CustomersUnique(t.orgs) && KeepsCustomers(s.orgs, t.orgs)
    requires Handled(cfg, s, e).1 == Failed
    ensures Handled(cfg, t, e).1 != Applied
  {
    LandsIff(cfg, s, e);
    LandsIff(cfg, t, e);
    if o :| o in Owners(s.orgs, IdOf(e.body.customer)) - {OrganizationOf(cfg, e.body.metadata).value} {
      assert o in Owners(t.orgs, IdOf(e.body.customer)) - {OrganizationOf(cfg, e.body.metadata).value};
    }
  }

  lemma {:induction false} RunKeepsNaming(cfg: Config, s: Store, events: seq<Event>, j: nat)
    requires CustomersUnique(s.orgs) && OneCustomerEach(cfg, s.orgs, events) && j <= |events|
    ensures OneCustomerEach(cfg, Delivered(cfg, s, events[..j]).orgs, events)
  {
    if j > 0 {
      RunKeepsNaming(cfg, s, events, j - 1);
      assert events[..j][..j - 1] == events[..j - 1];
      StepKeepsCustomers(cfg, Delivered(cfg, s, events[..j - 1]), events, events[j - 1]);
    }
  }

  lemma {:induction false} RunKeepsCustomers(cfg: Config, s: Store, events: seq<Event>, i: nat, j: nat)
    requires CustomersUnique(s.orgs) && OneCustomerEach(cfg, s.orgs, events) && i <= j <= |events|
    ensures KeepsCustomers(Delivered(cfg, s, events[..i]).orgs, Delivered(cfg, s, events[..j]).orgs)
  {
    if i < j {
      RunKeepsCustomers(cfg, s, events, i, j - 1);
      RunKeepsNaming(cfg, s, events, j - 1);
      assert events[..j][..j - 1] == events[..j - 1];
      StepKeepsCustomers(cfg, Delivered(cfg, s, events[..j - 1]), events, events[j - 1]);
    }
  }

  lemma {:induction false} EarlierOf(events: seq<Event>, k: nat) returns (i: nat)
    requires k < |events| && events[k].id in Ids(events[..k])
    ensures i < k && events[i].id == events[k].id
  {
    var e := IdOfSome(events[..k], events[k].id);
    i :| 0 <= i < k && events[..k][i] == e;
  }

  lemma {:induction false} ClaimedRepeatIsQuiet(cfg: Config, s: Store, events: seq<Event>, i: nat, k: nat)
    requires CustomersUnique(s.orgs) && i < k < |events| && events[i].id == events[k].id
    requires !events[i].body.Unhandled? && Handled(cfg, Delivered(cfg, s, events[..i]), events[i]).1 != Failed
    ensures Handled(cfg, Delivered(cfg, s, events[..k]), events[k]).1 != Applied
  {
    HandledOnlyAddsIds(cfg, Delivered(cfg, s, events[..i]), events[i]);
    assert events[..i + 1][..i] == events[..i] && events[..k][..i + 1] == events[..i + 1];
    SeenStays(cfg, s, events[..k], i + 1);
  }

  lemma {:induction false} RefusedRepeatIsQuiet(cfg: Config, s: Store, events: seq<Event>, i: nat, k: nat)
    requires CustomersUnique(s.orgs) && OneCustomerEach(cfg, s.orgs, events) && i < k < |events|
    requires events[i] == events[k]
    requires Handled(cfg, Delivered(cfg, s, events[..i]), events[i]).1 == Failed
    ensures Handled(cfg, Delivered(cfg, s, events[..k]), events[k]).1 != Applied
  {
    RunKeepsCustomers(cfg, s, events, i, k);
    RefusedStaysRefused(cfg, Delivered(cfg, s, events[..i]), Delivered(cfg, s, events[..k]), events[i]);
  }

  /** A repeat of an id that was claimed is a duplicate; of one that was ignored, ignored; of one that was
      refused, refused. */
  lemma {:induction false} RepeatIsQuiet(cfg: Config, s: Store, events: seq<Event>, k: nat)
    requires CustomersUnique(s.orgs) && OneCustomerEach(cfg, s.orgs, events) && IdsAgree(events)
    requires k < |events| && events[k].id in Ids(events[..k])
    ensures Handled(cfg, Delivered(cfg, s, events[..k]), events[k]).1 != Applied
  {
    var i := EarlierOf(events, k);
    assert events[i] in events && events[k] in events;
    if events[k].body.Unhandled? {
    } else if Handled(cfg, Delivered(cfg, s, events[..i]), events[i]).1 == Failed {
      RefusedRepeatIsQuiet(cfg, s, events, i, k);
    } else {
      ClaimedRepeatIsQuiet(cfg, s, events, i, k);
    }
  }

  /** EXACTLY ONCE. Where the batch names one customer for each organisation, repeated deliveries change
      nothing, even those of deliveries that were refused. */
  lemma {:induction false} RepeatsChangeNothing(cfg: Config, s: Store, events: seq<Event>)
    requires CustomersUnique(s.orgs) && OneCustomerEach(cfg, s.orgs, events) && IdsAgree(events)
    ensures Delivered(cfg, s, events) == Delivered(cfg, s, FirstDeliveries(events))
  {
    forall k | 0 <= k < |events| ensures !RepeatApplies(cfg, s, events, k) {
      if events[k].id in Ids(events[..k]) { RepeatIsQuiet(cfg, s, events, k); }
    }
    RepeatsChangeNothingIff(cfg, s, events);
  }

  lemma OnlyOwner(s: Store, customer: string, w: nat)
    requires CustomersUnique(s.orgs) && w in Owners(s.orgs, customer)
    ensures Owners(s.orgs, customer) == {w}
  {
  }

  lemma FreedCustomer(cfg: Config, s: Store, first: Event, between: Event, w: nat)
    requires CustomersUnique(s.orgs) && w in s.orgs && between.id !in s.seen
    requires NamesCustomer(cfg, first) && NamesCustomer(cfg, between) && Payer(cfg, between) == w
    requires s.orgs[w].customer == Some(Customer(cfg, first)) && Owners(s.orgs, IdOf(between.body.customer)) == {}
    ensures var after := Handled(cfg, s, between).0;
      after.seen == s.seen + {between.id} && Owners(after.orgs, IdOf(first.body.customer)) == {}
    ensures Customer(cfg, between) != Customer(cfg, first)
  {
    LandsIff(cfg, s, between);
    assert w !in Owners(s.orgs, IdOf(between.body.customer));
    OnlyOwner(s, IdOf(first.body.customer), w);
    var after := Handled(cfg, s, between).0;
    forall x | x in after.orgs ensures x !in Owners(after.orgs, IdOf(first.body.customer)) {
      assert x == w || x !in Owners(s.orgs, IdOf(first.body.customer));
    }
  }

  lemma {:induction false} ThirdIsARepeat(cfg: Config, s: Store, a: Event, b: Event)
    requires CustomersUnique(s.orgs) && a.id != b.id
    ensures FirstDeliveries([a, b, a]) == [a, b]
    ensures Delivered(cfg, s, [a, b]) == Handled(cfg, Handled(cfg, s, a).0, b).0
    ensures Delivered(cfg, s, [a, b, a]) == Handled(cfg, Handled(cfg, Handled(cfg, s, a).0, b).0, a).0
  {
    assert [a, b, a][..2] == [a, b] && [a, b][..1] == [a] && [a][..0] == [];
    assert FirstDeliveries([a]) == [a] && FirstDeliveries([a, b]) == [a, b];
    assert a.id in Ids([a, b]);
    assert Delivered(cfg, s, [a]) == Handled(cfg, s, a).0;
  }

  /** Without that promise repeats can matter: a checkout refused because its customer is still attached
      elsewhere takes effect when it is delivered again after that organisation's customer changed. The
      organisation is then named with two customers. */
  lemma {:induction false} RefusedDeliveryCanLandLater(cfg: Config, s: Store, first: Event, between: Event, w: nat)
    requires CustomersUnique(s.orgs) && w in s.orgs && first.id !in s.seen && between.id !in s.seen
    requires first.id != between.id
    requires NamesCustomer(cfg, first) && NamesCustomer(cfg, between) && Payer(cfg, between) == w
    requires Payer(cfg, first) in s.orgs && Payer(cfg, first) != w
    requires s.orgs[w].customer == Some(Customer(cfg, first)) && Owners(s.orgs, IdOf(between.body.customer)) == {}
    ensures Delivered(cfg, s, [first, between, first]) != Delivered(cfg, s, FirstDeliveries([first, between, first]))
    ensures !OneCustomerEach(cfg, s.orgs, [first, between, first])
  {
    LandsIff(cfg, s, first);
    assert w in Owners(s.orgs, IdOf(first.body.customer)) - {Payer(cfg, first)};
    FreedCustomer(cfg, s, first, between, w);
    LandsIff(cfg, s, between);
    LandsIff(cfg, Handled(cfg, s, between).0, first);
    HandledOnlyAddsIds(cfg, Handled(cfg, s, between).0, first);
    ThirdIsARepeat(cfg, s, first, between);
    assert [first, between, first][1] == between;
  }
}
