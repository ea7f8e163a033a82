/** What paying does, in the provider's own words: which invoices carry an allowance and how much, what a paid
    checkout buys, and which tier a subscription stands for (src/meshpipeline/application/billing_service.py). */
module Payments {
  import opened Wrappers
  import opened Text
  import opened Credits
  import opened Billing

  /** The provider names the customer of an organisation's row, by id or by the object itself. */
  predicate NamesOwner(s: Store, o: nat, customer: Reference) {
    (customer.Id? || customer.Expanded?) && customer.id != ""
    && o in s.orgs && s.orgs[o].customer == Some(Strip(customer.id))
  }

  /** A delivery nobody has claimed of an invoice for organisation `o`. */
  ghost predicate FreshInvoice(s: Store, o: nat, e: Event) {
    CustomersUnique(s.orgs) && e.body.InvoicePaid? && e.id !in s.seen && NamesOwner(s, o, e.body.customer)
  }

  predicate OpensPeriod(reason: string) {
    Strip(reason) in {"subscription_create", "subscription_cycle"}
  }

  /** What a tier includes. */
  function Allowance(tier: string): nat {
    if tier == "starter" then 1000 else if tier == "team" then 10000 else if tier == "enterprise" then 100000 else 0
  }

  predicate IsTier(tier: string) { tier == "starter" || tier == "team" || tier == "enterprise" }

  /** A tier however it is written: in any case, with spaces around it. */
  predicate Means(written: string, tier: string) { IsTier(tier) && Lower(Strip(written)) == tier }

  lemma AllowanceIsIncluded(written: string, tier: string)
    requires Means(written, tier)
    ensures Included(written) == Allowance(tier) && written != ""
  {
    assert Lower(Strip("")) == "";
  }

  lemma TierStandsForItself(tier: string)
    requires IsTier(tier)
    ensures Means(tier, tier)
  {
    assert Trimmed(tier) && Lowered(tier);
    StripTrimmed(tier);
    LowerFixes(tier);
  }

  /** What was granted to `o` and to nobody else, on rows that stay as they were. */
  ghost predicate Gained(s: Store, after: Store, o: nat, amount: int) {
    after.orgs == s.orgs
    && forall w: nat :: Balance(after.ledger, w) == Balance(s.ledger, w) + if w == o then amount else 0
  }

  /** The ledger's one new entry says what for; a grant of nothing writes none. */
  ghost predicate Noted(s: Store, after: Store, o: nat, amount: nat, reason: string) {
    after.ledger == s.ledger + if amount == 0 then [] else [Entry(None, o, GrantEntry, amount, reason, 0)]
  }

  lemma GrantGains(s: Store, o: nat, amount: nat, reason: string)
    requires o in s.orgs
    ensures Granted(s, o, amount, reason).Some? && Gained(s, Granted(s, o, amount, reason).value, o, amount)
    ensures Noted(s, Granted(s, o, amount, reason).value, o, amount, reason)
  {
    forall w: nat ensures Balance(Granted(s, o, amount, reason).value.ledger, w)
                       == Balance(s.ledger, w) + if w == o then amount else 0
    {
      BalanceOfAppend(s.ledger, Entry(None, o, GrantEntry, amount, reason, 0), w);
    }
  }

  lemma OwnerFound(s: Store, o: nat, customer: Reference)
    requires CustomersUnique(s.orgs) && NamesOwner(s, o, customer)
    ensures OwnerOf(s.orgs, IdOf(customer)) == Some(o)
  {
    assert o in Owners(s.orgs, IdOf(customer));
  }

  /** WHICH INVOICES PAY. An unclaimed invoice for an organisation on a tier raises its balance by the tier's
      allowance if and only if it was raised for a subscription's creation or for one of its cycles; any other
      raises nothing, and none touches another balance or any row. */
  lemma InvoicePaysIff(cfg: Config, s: Store, o: nat, e: Event, tier: string)
    requires FreshInvoice(s, o, e) && Means(s.orgs[o].plan, tier)
    ensures var (after, outcome) := Handled(cfg, s, e);
      && outcome == Applied && after.seen == s.seen + {e.id}
      && Gained(s, after, o, if OpensPeriod(e.body.reason) then Allowance(tier) else 0)
      && Noted(s, after, o, if OpensPeriod(e.body.reason) then Allowance(tier) else 0, "plan allowance")
    ensures Allowance(tier) > 0
  {
    AllowanceIsIncluded(s.orgs[o].plan, tier);
    var claimed := s.(seen := s.seen + {e.id});
    OwnerFound(claimed, o, e.body.customer);
    if OpensPeriod(e.body.reason) { GrantGains(claimed, o, Allowance(tier), "plan allowance"); }
  }

  /** Unclaimed invoices, under distinct ids, for an organisation on a tier. */
  ghost predicate Series(s: Store, o: nat, tier: string, events: seq<Event>) {
    && CustomersUnique(s.orgs) && o in s.orgs && Means(s.orgs[o].plan, tier)
    && (forall e :: e in events ==> FreshInvoice(s, o, e))
    && (forall i, j :: 0 <= i < j < |events| ==> events[i].id != events[j].id)
  }

  /** Whatever else is among them, each one that opens a period adds one allowance. */
  lemma {:induction false} InvoicesAddUp(cfg: Config, s: Store, o: nat, tier: string, events: seq<Event>)
    requires Series(s, o, tier, events)
    ensures var after := Delivered(cfg, s, events);
      && after.seen == s.seen + Ids(events)
      && Gained(s, after, o, Periods(events) * Allowance(tier))
  {
    if events != [] {
      var n := |events| - 1;
      InvoicesAddUp(cfg, s, o, tier, events[..n]);
      IdsAreTheirs(events[..n]);
      var before := Delivered(cfg, s, events[..n]);
      assert events[n] in events && FreshInvoice(before, o, events[n]);
      InvoicePaysIff(cfg, before, o, events[n], tier);
      OneMore(Periods(events[..n]), Allowance(tier));
    }
  }

  lemma OneMore(n: nat, amount: nat)
    ensures (n + 1) * amount == n * amount + amount
  {
  }

  lemma {:induction false} IdsAreTheirs(events: seq<Event>)
    ensures forall id :: id in Ids(events) <==> exists i :: 0 <= i < |events| && events[i].id == id
  {
    if events != [] { IdsAreTheirs(events[..|events| - 1]); }
  }

  /** How many of the invoices open a period. */
  function Periods(events: seq<Event>): nat {
    if events == [] then 0
    else
      var last := events[|events| - 1];
      Periods(events[..|events| - 1]) + if last.body.InvoicePaid? && OpensPeriod(last.body.reason) then 1 else 0
  }

  lemma {:induction false} AllOpen(events: seq<Event>)
    requires forall e :: e in events ==> e.body.InvoicePaid? && OpensPeriod(e.body.reason)
    ensures Periods(events) == |events|
  {
    if events != [] {
      assert events[|events| - 1] in events;
      AllOpen(events[..|events| - 1]);
    }
  }

  /** A SUBSCRIPTION'S LIFE. The invoice of its creation and those of `n` renewals, under distinct ids, add n + 1
      allowances. */
  lemma {:induction false} RenewalsAddUp(cfg: Config, s: Store, o: nat, tier: string, first: Event,
                                         renewals: seq<Event>)
    requires Series(s, o, tier, [first] + renewals) && first.body.InvoicePaid?
    requires first.body.reason == "subscription_create"
    requires forall e :: e in renewals ==> e.body.InvoicePaid? && e.body.reason == "subscription_cycle"
    ensures Gained(s, Delivered(cfg, s, [first] + renewals), o, (|renewals| + 1) * Allowance(tier))
  {
    StripTrimmed("subscription_create");
    StripTrimmed("subscription_cycle");
    AllOpen([first] + renewals);
    InvoicesAddUp(cfg, s, o, tier, [first] + renewals);
  }

  /** A change of plan in mid-cycle, a usage threshold, an invoice raised by hand: they add nothing. */
  lemma MidCycleAddsNothing(cfg: Config, s: Store, o: nat, e: Event, tier: string)
    requires FreshInvoice(s, o, e) && Means(s.orgs[o].plan, tier)
    requires Strip(e.body.reason) in {"subscription_update", "subscription_threshold", "manual", "upcoming", ""}
    ensures Gained(s, Handled(cfg, s, e).0, o, 0)
  {
    NotAPeriod(Strip(e.body.reason));
    InvoicePaysIff(cfg, s, o, e, tier);
  }

  lemma NotAPeriod(reason: string)
    requires reason in {"subscription_update", "subscription_threshold", "manual", "upcoming", ""}
    ensures reason !in {"subscription_create", "subscription_cycle"}
  {
    assert "subscription_update"[13] == 'u' && "subscription_create"[13] == 'c' && "subscription_cycle"[13] == 'c';
    assert |"subscription_update"| == 19 && |"subscription_threshold"| == 22;
    assert |"subscription_create"| == 19 && |"subscription_cycle"| == 18;
  }

  // ---- an organisation that has no tier yet ---------------------------------------------------------------

  /** The tier a set of metadata names. */
  predicate Names(metadata: Option<map<string, string>>, tier: string) {
    metadata.Some? && "plan" in metadata.value && Means(metadata.value["plan"], tier)
  }

  predicate NamesNone(metadata: Option<map<string, string>>) {
    !Names(metadata, "starter") && !Names(metadata, "team") && !Names(metadata, "enterprise")
  }

  /** The tier the invoice itself names: where current API versions put it, else where older ones did. */
  predicate InvoiceNames(b: Body, tier: string)
    requires b.InvoicePaid?
  {
    Names(b.details, tier) || (NamesNone(b.details) && Names(b.oldDetails, tier))
  }

  lemma TierRead(metadata: map<string, string>, tier: string)
    requires IsTier(tier)
    ensures TierNamed(metadata) == tier <==> Names(Some(metadata), tier)
    ensures TierNamed(metadata) == "" <==> NamesNone(Some(metadata))
  {
    assert PLANS == ["starter", "team", "enterprise"] && Lower(Strip("")) == "";
    if TierNamed(metadata) != "" { assert Names(Some(metadata), TierNamed(metadata)); }
  }

  lemma InvoiceTierRead(b: Body, tier: string)
    requires b.InvoicePaid? && InvoiceNames(b, tier)
    ensures PlanOfInvoice(b) == tier
  {
    if b.details.Some? { TierRead(b.details.value, tier); }
    if b.oldDetails.Some? { TierRead(b.oldDetails.value, tier); }
  }

  lemma InvoiceAllowance(b: Body, tier: string)
    requires b.InvoicePaid?
    requires InvoiceNames(b, tier) || (tier == "" && NamesNone(b.details) && NamesNone(b.oldDetails))
    ensures Included(PlanOfInvoice(b)) == Allowance(tier)
  {
    if tier == "" {
      if b.details.Some? { TierRead(b.details.value, "team"); }
      if b.oldDetails.Some? { TierRead(b.oldDetails.value, "team"); }
      assert Lower(Strip("")) == "";
    } else {
      InvoiceTierRead(b, tier);
      TierStandsForItself(tier);
      AllowanceIsIncluded(tier, tier);
    }
  }

  lemma UntieredPays(cfg: Config, s: Store, o: nat, e: Event, amount: nat)
    requires FreshInvoice(s, o, e) && s.orgs[o].plan == "" && OpensPeriod(e.body.reason)
    requires Included(PlanOfInvoice(e.body)) == amount
    ensures Gained(s, Handled(cfg, s, e).0, o, amount)
  {
    var claimed := s.(seen := s.seen + {e.id});
    OwnerFound(claimed, o, e.body.customer);
    GrantGains(claimed, o, amount, "plan allowance");
  }

  /** The first period's invoice can arrive before the subscription that sets the row's tier: then it pays what the
      tier it names itself includes, and nothing if it names none. */
  lemma UntieredInvoicePays(cfg: Config, s: Store, o: nat, e: Event, tier: string)
    requires FreshInvoice(s, o, e) && s.orgs[o].plan == "" && OpensPeriod(e.body.reason)
    requires InvoiceNames(e.body, tier) || (tier == "" && NamesNone(e.body.details) && NamesNone(e.body.oldDetails))
    ensures Gained(s, Handled(cfg, s, e).0, o, Allowance(tier))
  {
    InvoiceAllowance(e.body, tier);
    UntieredPays(cfg, s, o, e, Allowance(tier));
  }

  // ---- a checkout -----------------------------------------------------------------------------------------

  /** A delivery nobody has claimed of a completed checkout session for organisation `o`, whose customer, if it
      names one, no other organisation holds. */
  ghost predicate FreshCheckout(cfg: Config, s: Store, o: nat, e: Event) {
    && CustomersUnique(s.orgs) && e.body.Checkout? && e.id !in s.seen && o in s.orgs
    && "organization_id" in e.body.metadata && Strip(e.body.metadata["organization_id"]) != ""
    && cfg.parseUuid(Strip(e.body.metadata["organization_id"])) == Some(o)
    && (!e.body.customer.Missing? ==>
          forall w :: w in s.orgs && s.orgs[w].customer == Some(Strip(e.body.customer.id)) ==> w == o)
  }

  predicate IsPaid(status: string) { status in {"paid", "no_payment_required"} }

  /** The credits of a one-off pack. */
  function PackCredits(cfg: Config, metadata: map<string, string>): nat {
    if "credit_pack" in metadata && metadata["credit_pack"] == "one_off" && "total_credits" in metadata then
      match cfg.parseInt(Strip(metadata["total_credits"]))
      case Some(n) => if n > 0 then n else 0
      case None => 0
    else 0
  }

  lemma PackIsRead(cfg: Config, metadata: map<string, string>)
    requires cfg.parseInt("0") == Some(0)
    ensures ExtraCredits(cfg, metadata) == PackCredits(cfg, metadata)
  {
    assert Strip("0") == "0";
  }

  /** The organisation with the customer its checkout named. */
  function WithCustomer(org: Organization, customer: Reference): Organization {
    if customer.Missing? || customer.id == "" then org else org.(customer := Some(Strip(customer.id)))
  }

  lemma {:induction false} AttachedIs(s: Store, o: nat, customer: string)
    requires o in s.orgs && forall w :: w in s.orgs && s.orgs[w].customer == Some(Strip(customer)) ==> w == o
    ensures Attached(s, o, customer) == Some(s.(orgs := s.orgs[o := s.orgs[o].(customer := Some(Strip(customer)))]))
  {
    assert Owners(s.orgs, customer) - {o} == {};
  }

  /** WHAT A CHECKOUT DOES. One that is paid, or has nothing to pay, attaches its customer and grants the credits of
      the one-off pack it bought, if it bought one; any other only claims its id. */
  lemma CheckoutPays(cfg: Config, s: Store, o: nat, e: Event)
    requires FreshCheckout(cfg, s, o, e) && cfg.parseInt("0") == Some(0)
    ensures var (after, outcome) := Handled(cfg, s, e);
      && outcome == Applied && after.seen == s.seen + {e.id}
      && after.orgs == (if IsPaid(e.body.paymentStatus) then s.orgs[o := WithCustomer(s.orgs[o], e.body.customer)]
                        else s.orgs)
      && Noted(s, after, o, if IsPaid(e.body.paymentStatus) then PackCredits(cfg, e.body.metadata) else 0,
               "extra credits")
      && forall w: nat :: Balance(after.ledger, w) == Balance(s.ledger, w)
           + if w == o && IsPaid(e.body.paymentStatus) then PackCredits(cfg, e.body.metadata) else 0
  {
    PackIsRead(cfg, e.body.metadata);
    var claimed := s.(seen := s.seen + {e.id});
    if IsPaid(e.body.paymentStatus) {
      var attached := claimed.(orgs := s.orgs[o := WithCustomer(s.orgs[o], e.body.customer)]);
      if IdOf(e.body.customer) != "" {
        AttachedIs(claimed, o, IdOf(e.body.customer));
      } else {
        assert attached == claimed;
      }
      GrantGains(attached, o, ExtraCredits(cfg, e.body.metadata), "extra credits");
    }
  }

  // ---- a subscription ---------------------------------------------------------------------------------------

  ghost predicate FreshSubscription(cfg: Config, s: Store, o: nat, e: Event, metadata: map<string, string>) {
    && CustomersUnique(s.orgs) && e.id !in s.seen && o in s.orgs
    && "organization_id" in metadata && Strip(metadata["organization_id"]) != ""
    && cfg.parseUuid(Strip(metadata["organization_id"])) == Some(o)
  }

  /** The deployment sells `tier` at this price, and no tier listed before it. */
  predicate SoldAt(cfg: Config, price: string, tier: string) {
    || (tier == "starter" && Priced(cfg, price, "starter"))
    || (tier == "team" && Priced(cfg, price, "team") && !Priced(cfg, price, "starter"))
    || (tier == "enterprise" && Priced(cfg, price, "enterprise") && !Priced(cfg, price, "starter")
        && !Priced(cfg, price, "team"))
  }

  predicate Priced(cfg: Config, price: string, tier: string) {
    cfg.priceOf(tier) != "" && cfg.priceOf(tier) == Strip(price)
  }

  /** An item that is charged for as such, and not by its metered usage, names the tier. */
  predicate ItemNames(cfg: Config, item: Item, tier: string) {
    item.usage != "metered" && SoldAt(cfg, item.price, tier)
  }

  predicate ItemSilent(cfg: Config, item: Item) {
    !ItemNames(cfg, item, "starter") && !ItemNames(cfg, item, "team") && !ItemNames(cfg, item, "enterprise")
  }

  /** The first item that names a tier names this one. */
  ghost predicate ItemsName(cfg: Config, items: seq<Item>, tier: string) {
    exists k :: 0 <= k < |items| && ItemNames(cfg, items[k], tier)
      && forall j :: 0 <= j < k ==> ItemSilent(cfg, items[j])
  }

  ghost predicate ItemsSilent(cfg: Config, items: seq<Item>) {
    forall j :: 0 <= j < |items| ==> ItemSilent(cfg, items[j])
  }

  lemma {:induction false} PriceRead(cfg: Config, price: string)
    ensures PlanOfPrice(cfg, price, PLANS)
         == if Priced(cfg, price, "starter") then "starter" else if Priced(cfg, price, "team") then "team"
            else if Priced(cfg, price, "enterprise") then "enterprise" else ""
  {
    assert PLANS[1..] == ["team", "enterprise"] && PLANS[1..][1..] == ["enterprise"] && PLANS[1..][1..][1..] == [];
    assert PlanOfPrice(cfg, price, ["enterprise"]) == if Priced(cfg, price, "enterprise") then "enterprise" else "";
    assert PlanOfPrice(cfg, price, ["team", "enterprise"])
        == if Priced(cfg, price, "team") then "team" else PlanOfPrice(cfg, price, ["enterprise"]);
  }

  lemma {:induction false} ItemsRead(cfg: Config, items: seq<Item>)
    ensures PlanOfItems(cfg, items) == "" ==> ItemsSilent(cfg, items)
    ensures PlanOfItems(cfg, items) != "" ==> ItemsName(cfg, items, PlanOfItems(cfg, items))
  {
    if items != [] {
      PriceRead(cfg, items[0].price);
      ItemsRead(cfg, items[1..]);
      if ItemSilent(cfg, items[0]) {
        if PlanOfItems(cfg, items) != "" {
          var tier := PlanOfItems(cfg, items);
          var k: nat :| k < |items| - 1 && ItemNames(cfg, items[1..][k], tier)
            && forall j :: 0 <= j < k ==> ItemSilent(cfg, items[1..][j]);
          assert ItemNames(cfg, items[k + 1], tier);
          forall j | 0 <= j < k + 1 ensures ItemSilent(cfg, items[j]) {
            assert j > 0 ==> items[j] == items[1..][j - 1];
          }
        }
      } else {
        assert ItemNames(cfg, items[0], PlanOfItems(cfg, items));
      }
    }
  }

  lemma ItemNamesOne(cfg: Config, item: Item, tier: string, other: string)
    requires ItemNames(cfg, item, tier) && ItemNames(cfg, item, other)
    ensures tier == other
  {
  }

  lemma NotSilent(cfg: Config, item: Item, tier: string)
    requires ItemNames(cfg, item, tier)
    ensures !ItemSilent(cfg, item) && IsTier(tier)
  {
  }

  lemma {:induction false} ItemsNameOne(cfg: Config, items: seq<Item>, tier: string)
    requires ItemsName(cfg, items, tier)
    ensures PlanOfItems(cfg, items) == tier
  {
    ItemsRead(cfg, items);
    var k :| 0 <= k < |items| && ItemNames(cfg, items[k], tier) && forall j :: 0 <= j < k ==> ItemSilent(cfg, items[j]);
    NotSilent(cfg, items[k], tier);
    var other := PlanOfItems(cfg, items);
    assert other != "";
    var n :| 0 <= n < |items| && ItemNames(cfg, items[n], other)
      && forall j :: 0 <= j < n ==> ItemSilent(cfg, items[j]);
    NotSilent(cfg, items[n], other);
    assert n == k;
    ItemNamesOne(cfg, items[k], tier, other);
  }

  /** WHICH TIER A SUBSCRIPTION STANDS FOR. The first licensed item sold at a tier's price names it; with no such
      item its metadata does; a subscription that names none leaves the row's tier alone. */
  lemma SubscriptionSetsTier(cfg: Config, s: Store, o: nat, e: Event, tier: string)
    requires e.body.SubscriptionSet? && FreshSubscription(cfg, s, o, e, e.body.metadata)
    requires || ItemsName(cfg, e.body.items, tier)
             || (ItemsSilent(cfg, e.body.items) && Names(Some(e.body.metadata), tier))
             || (ItemsSilent(cfg, e.body.items) && NamesNone(Some(e.body.metadata)) && tier == s.orgs[o].plan)
    ensures var (after, outcome) := Handled(cfg, s, e);
      && outcome == Applied && after.ledger == s.ledger
      && after.orgs == s.orgs[o := Organization(tier, s.orgs[o].customer, Strip(e.body.id), Strip(e.body.status))]
  {
    if ItemsName(cfg, e.body.items, tier) {
      ItemsNameOne(cfg, e.body.items, tier);
      ItemsRead(cfg, e.body.items);
    } else {
      ItemsRead(cfg, e.body.items);
      SilentItems(cfg, e.body.items);
      TierRead(e.body.metadata, if IsTier(tier) then tier else "team");
    }
    NamedIsATier(cfg, e.body, tier);
  }

  lemma {:induction false} SilentItems(cfg: Config, items: seq<Item>)
    requires ItemsSilent(cfg, items)
    ensures PlanOfItems(cfg, items) == ""
  {
    ItemsRead(cfg, items);
    if PlanOfItems(cfg, items) != "" {
      var tier := PlanOfItems(cfg, items);
      var k :| 0 <= k < |items| && ItemNames(cfg, items[k], tier);
      NotSilent(cfg, items[k], tier);
    }
  }

  lemma NamedIsATier(cfg: Config, b: Body, tier: string)
    requires b.SubscriptionSet?
    ensures ItemsName(cfg, b.items, tier) || Names(Some(b.metadata), tier) ==> tier != ""
  {
    if ItemsName(cfg, b.items, tier) {
      var k :| 0 <= k < |b.items| && ItemNames(cfg, b.items[k], tier);
      NotSilent(cfg, b.items[k], tier);
    }
  }

  /** A subscription that ends takes the tier with it, and with it the next invoice's allowance. */
  lemma DeletionClearsTier(cfg: Config, s: Store, o: nat, e: Event)
    requires e.body.SubscriptionDeleted? && FreshSubscription(cfg, s, o, e, e.body.metadata)
    ensures var (after, outcome) := Handled(cfg, s, e);
      && outcome == Applied && after.ledger == s.ledger
      && after.orgs == s.orgs[o := Organization("", s.orgs[o].customer, "", "canceled")]
  {
  }

  /** A failed payment is recorded and changes nothing; an event of another type is not even recorded. */
  lemma FailedPaymentChangesNothing(cfg: Config, s: Store, e: Event)
    requires CustomersUnique(s.orgs) && (e.body.PaymentFailed? || e.body.Unhandled?)
    ensures Handled(cfg, s, e).0 == if e.body.PaymentFailed? then s.(seen := s.seen + {e.id}) else s
  {
  }

  /** The metadata names no organisation: it has no entry for one, a blank one, or one that is no identifier. */
  predicate NamesNobody(cfg: Config, metadata: map<string, string>) {
    || "organization_id" !in metadata || Strip(metadata["organization_id"]) == ""
    || cfg.parseUuid(Strip(metadata["organization_id"])).None?
  }

  /** Nobody is guessed: a checkout or a subscription that names no organisation is only recorded, and so is an invoice
      without a customer or for a customer nobody holds. */
  lemma NobodyIsGuessed(cfg: Config, s: Store, e: Event)
    requires CustomersUnique(s.orgs) && e.id !in s.seen
    requires match e.body
      case Checkout(_, metadata, _) => NamesNobody(cfg, metadata)
      case SubscriptionSet(_, metadata, _, _) => NamesNobody(cfg, metadata)
      case SubscriptionDeleted(metadata) => NamesNobody(cfg, metadata)
      case InvoicePaid(_, customer, _, _) =>
        || customer.Missing? || customer.id == ""
        || forall o :: o in s.orgs ==> s.orgs[o].customer != Some(Strip(customer.id))
      case _ => false
    ensures Handled(cfg, s, e) == (s.(seen := s.seen + {e.id}), Applied)
  {
    assert Strip("") == "";
  }
}
