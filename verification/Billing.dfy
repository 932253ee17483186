/** Plan tiers and the per-org site caps, as the quota policy and the billing store each state them. */
module Plans {
  import opened Bytes

  const FREE := "free"
  const PRO := "pro"
  const BUSINESS := "business"
  const ENTERPRISE := "enterprise"

  predicate KnownTier(tier: string) { tier == FREE || tier == PRO || tier == BUSINESS || tier == ENTERPRISE }

  /** The billing store's cap: `None` is uncapped. */
  function SiteCapForTier(tier: string): Option<nat> {
    if tier == FREE then Some(10) else if tier == PRO then Some(100) else None
  }

  /** The quota policy's cap. */
  function OrgSiteCap(tier: string): Option<nat> {
    if tier == PRO then Some(100)
    else if tier == BUSINESS || tier == ENTERPRISE then None
    else Some(10)
  }

  /** The quota gate for sites: adding `n` must stay within the cap; an empty tier is Free. */
  predicate AllowSites(planTier: string, current: nat, n: nat) {
    var cap := OrgSiteCap(if planTier == "" then FREE else planTier);
    cap.None? || current + n <= cap.value
  }

  predicate WithinCap(tier: string, sites: nat) {
    SiteCapForTier(tier).None? || sites <= SiteCapForTier(tier).value
  }

  /** The two statements of the bands agree on exactly the four known tiers. */
  lemma BandsAgree(tier: string)
    ensures SiteCapForTier(tier) == OrgSiteCap(tier) <==> KnownTier(tier)
  {
  }
}

/** Stripe payloads, after JSON decoding, to the event data the store applies. */
module Stripe {
  import opened Bytes
  import opened Plans

  /** Zero and the empty string stand for absent fields, as in the source. */
  datatype EventData = EventData(
    org: string, customer: string, subscription: string, tier: string, seats: int, status: string,
    periodStart: int, periodEnd: int, cancelAtPeriodEnd: bool, unknownPrice: bool)

  datatype PriceMap = PriceMap(pro: string, business: string, enterprise: string)

  function TierForChecked(m: PriceMap, price: string): (string, bool) {
    if price == "" then (FREE, true)
    else if price == m.enterprise && m.enterprise != "" then (ENTERPRISE, true)
    else if price == m.business && m.business != "" then (BUSINESS, true)
    else if price == m.pro && m.pro != "" then (PRO, true)
    else (FREE, false)
  }

  datatype Session = Session(
    clientReference: string, customer: string, subscription: string, metadata: map<string, string>)

  function Lookup(m: map<string, string>, key: string): string { if key in m then m[key] else "" }

  function ResolveOrg(clientReference: string, metadata: map<string, string>): string {
    if clientReference != "" then clientReference else Lookup(metadata, "org_id")
  }

  function FromCheckoutSession(cs: Session): Option<EventData> {
    var target := Lookup(cs.metadata, "target_tier");
    var tier := if target == PRO || target == BUSINESS || target == ENTERPRISE then target else FREE;
    var org := ResolveOrg(cs.clientReference, cs.metadata);
    if org == "" then None
    else Some(EventData(org, cs.customer, cs.subscription, tier, 0, "active", 0, 0, false, false))
  }

  datatype Item = Item(quantity: int, price: string, periodStart: int, periodEnd: int)
  datatype Subscription = Subscription(
    id: string, customer: string, status: string, cancelAtPeriodEnd: bool,
    periodStart: int, periodEnd: int, metadata: map<string, string>, items: seq<Item>)

  /** The line item the plan is read from: the first with a known price, else the first. */
  function PlanItem(m: PriceMap, items: seq<Item>): Item
    requires items != []
  {
    if exists i :: 0 <= i < |items| && TierForChecked(m, items[i].price).1 then
      items[FirstKnown(m, items)]
    else items[0]
  }

  function FirstKnown(m: PriceMap, items: seq<Item>): (k: nat)
    requires exists i :: 0 <= i < |items| && TierForChecked(m, items[i].price).1
    ensures k < |items| && TierForChecked(m, items[k].price).1
    ensures forall i :: 0 <= i < k ==> !TierForChecked(m, items[i].price).1
  {
    if TierForChecked(m, items[0].price).1 then 0
    else
      assert forall i :: 0 < i < |items| ==> items[i] == items[1..][i - 1];
      1 + FirstKnown(m, items[1..])
  }

  method FromSubscription(m: PriceMap, sub: Subscription) returns (r: Option<EventData>)
    ensures r.None? <==> Lookup(sub.metadata, "org_id") == ""
    ensures r.Some? ==>
      var d := r.value;
      && d.org == Lookup(sub.metadata, "org_id") && d.customer == sub.customer && d.subscription == sub.id
      && d.status == sub.status && d.cancelAtPeriodEnd == sub.cancelAtPeriodEnd
      && (d.tier, !d.unknownPrice)
           == (if sub.items == [] then (FREE, true) else TierForChecked(m, PlanItem(m, sub.items).price))
      && d.seats == (if sub.items == [] then 0 else PlanItem(m, sub.items).quantity)
      && d.periodStart == (if sub.periodStart != 0 || sub.items == [] then sub.periodStart
                           else PlanItem(m, sub.items).periodStart)
      && d.periodEnd == (if sub.periodEnd != 0 || sub.items == [] then sub.periodEnd
                         else PlanItem(m, sub.items).periodEnd)
  {
    var org := ResolveOrg("", sub.metadata);
    var d := EventData(org, sub.customer, sub.id, FREE, 0, sub.status,
                       sub.periodStart, sub.periodEnd, sub.cancelAtPeriodEnd, false);
    if sub.items != [] {
      var item := sub.items[0];
      var i := 0;
      while i < |sub.items|
        invariant 0 <= i <= |sub.items|
        invariant item == sub.items[0]
        invariant forall j :: 0 <= j < i ==> !TierForChecked(m, sub.items[j].price).1
      {
        if TierForChecked(m, sub.items[i].price).1 {
          item := sub.items[i];
          break;
        }
        i := i + 1;
      }
      assert item == PlanItem(m, sub.items);
      var (tier, known) := TierForChecked(m, item.price);
      d := d.(seats := item.quantity, tier := tier, unknownPrice := !known);
      if d.periodEnd == 0 { d := d.(periodEnd := item.periodEnd); }
      if d.periodStart == 0 { d := d.(periodStart := item.periodStart); }
    }
    r := if d.org == "" then None else Some(d);
  }

  /** A price is unknown only when no line item has one the configuration (or absence) explains. */
  lemma UnknownPriceExactly(m: PriceMap, items: seq<Item>)
    requires items != []
    ensures !TierForChecked(m, PlanItem(m, items).price).1
       <==> forall i :: 0 <= i < |items| ==> !TierForChecked(m, items[i].price).1
    ensures !TierForChecked(m, PlanItem(m, items).price).1 ==> PlanItem(m, items) == items[0]
  {
  }

  /** A price the configuration maps to a paid tier. */
  predicate PlanPriced(m: PriceMap, item: Item) { item.price != "" && TierForChecked(m, item.price).1 }

  /**
   * Extra items are meant to be skipped. The tier is that of the first plan-priced item exactly
   * when no item without a price stands before it; then seats and period are that item's too.
   */
  lemma PlanTierExactly(m: PriceMap, items: seq<Item>, k: nat)
    requires k < |items| && PlanPriced(m, items[k]) && forall i :: 0 <= i < k ==> !PlanPriced(m, items[i])
    ensures TierForChecked(m, PlanItem(m, items).price) == TierForChecked(m, items[k].price)
       <==> forall i :: 0 <= i < k ==> items[i].price != ""
    ensures (forall i :: 0 <= i < k ==> items[i].price != "") ==> PlanItem(m, items) == items[k]
  {
    assert TierForChecked(m, items[k].price).0 != FREE;
    var j := FirstKnown(m, items);
    assert j <= k;
    if i :| 0 <= i < k && items[i].price == "" {
      assert TierForChecked(m, items[i].price).1;
      assert items[j].price == "";
    }
  }

  /** An item without a price before a Pro item of five seats: the org is Free with one seat. */
  lemma PricelessItemHidesPlan() returns (m: PriceMap, items: seq<Item>)
    ensures |items| == 2 && TierForChecked(m, items[1].price) == (PRO, true) && items[1].quantity == 5
    ensures TierForChecked(m, PlanItem(m, items).price) == (FREE, true) && PlanItem(m, items).quantity == 1
  {
    m, items := PriceMap("price_pro", "", ""), [Item(1, "", 0, 0), Item(5, "price_pro", 0, 0)];
    assert TierForChecked(m, items[0].price).1;
  }

  /** The price a checkout for a tier is created with. */
  function PriceFor(m: PriceMap, tier: string): Option<string> {
    var price := if tier == PRO then m.pro else if tier == BUSINESS then m.business
                 else if tier == ENTERPRISE then m.enterprise else "";
    if price == "" then None else Some(price)
  }

  /** No price is configured for two tiers. */
  predicate DistinctPrices(m: PriceMap) {
    && (m.pro != "" ==> m.pro != m.business && m.pro != m.enterprise)
    && (m.business != "" ==> m.business != m.enterprise)
  }

  /** What a checkout charges for is what the webhook reads back, exactly when no two tiers share a price. */
  lemma PricesRoundTripExactly(m: PriceMap)
    ensures DistinctPrices(m) <==>
      forall tier :: PriceFor(m, tier).Some? ==> TierForChecked(m, PriceFor(m, tier).value) == (tier, true)
  {
    if !DistinctPrices(m) {
      var tier := if m.pro != "" && (m.pro == m.business || m.pro == m.enterprise) then PRO else BUSINESS;
      assert PriceFor(m, tier).Some? && TierForChecked(m, PriceFor(m, tier).value) != (tier, true);
    }
  }

  /** A price nothing is configured with is Free and unrecognized; no price at all is Free and recognized. */
  lemma OtherPrices(m: PriceMap, price: string)
    ensures TierForChecked(m, "") == ("free", true)
    ensures price != "" && price != m.pro && price != m.business && price != m.enterprise ==>
      TierForChecked(m, price) == ("free", false)
  {
  }

  /** A checkout for a paid tier names that tier, and anything else Free; either is active with no seats. */
  lemma CheckoutNamesTarget(cs: Session)
    ensures FromCheckoutSession(cs).None? <==>
      cs.clientReference == "" && ("org_id" !in cs.metadata || cs.metadata["org_id"] == "")
    ensures FromCheckoutSession(cs).Some? ==>
      var d := FromCheckoutSession(cs).value;
      var target := if "target_tier" in cs.metadata then cs.metadata["target_tier"] else "";
      && d.tier == (if target in {"pro", "business", "enterprise"} then target else "free")
      && d.status == "active" && d.seats == 0 && d.customer == cs.customer && d.subscription == cs.subscription
      && !d.unknownPrice && (cs.clientReference != "" ==> d.org == cs.clientReference)
  {
  }

  lemma TiersAreKnown(m: PriceMap, price: string, cs: Session)
    ensures KnownTier(TierForChecked(m, price).0)
    ensures FromCheckoutSession(cs).Some? ==> KnownTier(FromCheckoutSession(cs).value.tier)
  {
  }
}

/**
 * The webhook's store: a dedupe ledger and the entitlement tables, changed in one
 * transaction, and an edge flag written after the commit.
 *
 * Postgres constraints that reject a write (the foreign key to org_meta, the CHECK on
 * plan_tier, the UNIQUE columns) are modelled as errors, which roll back.
 */
module Store {
  import opened Bytes
  import opened Plans
  import opened Stripe

  /** The empty string in `subscription` and `None` in a period bound are SQL NULL. */
  datatype Row = Row(
    customer: string, subscription: string, tier: string, seats: int, status: string,
    cancelAtPeriodEnd: bool, periodStart: Option<int>, periodEnd: Option<int>, orgStatus: string)

  datatype Db = Db(
    ledger: set<string>, subs: map<string, Row>, orgMeta: map<string, string>, sites: map<string, nat>)

  datatype Event = Event(id: string, kind: string, data: EventData)

  datatype Error = EmptyOrg | UnknownPrice | Unfulfillable | Constraint | Transient
  /** What the post-commit hooks need; `org` is empty for an event nothing handles. */
  datatype Applied = Applied(org: string, fromTier: string, toTier: string, orgStatus: string)
  datatype Result<+T> = Ok(value: T) | Err(error: Error)

  predicate Entitled(status: string) { status == "active" || status == "trialing" || status == "past_due" }

  function NormalizeStatus(status: string): string {
    if Entitled(status) || status == "canceled" || status == "incomplete" then status
    else if status == "" then "active"
    else "past_due"
  }

  function SiteCount(db: Db, org: string): nat { if org in db.sites then db.sites[org] else 0 }

  /** The billing page's read, from org_meta. */
  function ReadPlanTier(db: Db, org: string): string {
    var tier := if org in db.orgMeta then db.orgMeta[org] else FREE;
    if tier == "" then FREE else tier
  }

  /** The feature gate's read, from subscriptions. */
  function PlanGateTier(db: Db, org: string): string { if org in db.subs then db.subs[org].tier else FREE }

  function StatusFor(db: Db, org: string, tier: string): string {
    if WithinCap(tier, SiteCount(db, org)) then "active" else "over_limit"
  }

  function Bound(unix: int): Option<int> { if unix <= 0 then None else Some(unix) }
  function Coalesce(a: Option<int>, b: Option<int>): Option<int> { if a.Some? then a else b }

  /** The row an upsert leaves, given the row it found. */
  function Merge(d: EventData, tier: string, orgStatus: string, found: Option<Row>): Row {
    var incoming := Row(d.customer, d.subscription, tier, d.seats, NormalizeStatus(d.status),
                     d.cancelAtPeriodEnd, Bound(d.periodStart), Bound(d.periodEnd), orgStatus);
    match found
    case None => incoming
    case Some(row) => incoming.(
      customer := if d.customer != "" then d.customer else row.customer,
      subscription := if d.subscription != "" then d.subscription else row.subscription,
      seats := if d.seats != 0 then d.seats else row.seats,
      periodStart := Coalesce(incoming.periodStart, row.periodStart),
      periodEnd := Coalesce(incoming.periodEnd, row.periodEnd))
  }

  /** `stored` is the event's value where it has one, else what the row held before. */
  ghost predicate Kept<T>(stored: T, given: T, blank: T, before: T) {
    stored == if given == blank then before else given
  }

  /** Another org already holds this customer or subscription id. */
  predicate Taken(subs: map<string, Row>, org: string, row: Row) {
    exists o :: o in subs && o != org &&
      (subs[o].customer == row.customer || (row.subscription != "" && subs[o].subscription == row.subscription))
  }

  function TierOf(d: EventData): string { if d.tier == "" then FREE else d.tier }

  /** No row to take a customer id from. */
  predicate NoCustomer(db: Db, org: string) { org !in db.subs || db.subs[org].customer == "" }

  function UpsertTx(db: Db, d: EventData): Result<(Db, Applied)> {
    var tier := TierOf(d);
    var found := Find(db.subs, d.org);
    var orgStatus := StatusFor(db, d.org, tier);
    var row := Merge(d, tier, orgStatus, found);
    if d.customer == "" && NoCustomer(db, d.org) then Err(Unfulfillable)
    else if !KnownTier(tier) || d.org !in db.orgMeta || Taken(db.subs, d.org, row) then Err(Constraint)
    else Ok((db.(subs := db.subs[d.org := row], orgMeta := db.orgMeta[d.org := tier]),
             Applied(d.org, ReadPlanTier(db, d.org), tier, orgStatus)))
  }

  /** A committed upsert stores each field of the event, and blanks none that the event leaves out. */
  lemma UpsertStores(db: Db, d: EventData)
    requires UpsertTx(db, d).Ok?
    ensures var (after, applied) := UpsertTx(db, d).value;
      && d.org in after.subs && after.subs - {d.org} == db.subs - {d.org}
      && (var row, found := after.subs[d.org], Find(db.subs, d.org);
          var was := if found.Some? then found.value else Row("", "", "", 0, "", false, None, None, "");
          && Kept(row.customer, d.customer, "", was.customer) && row.customer != ""
          && Kept(row.subscription, d.subscription, "", was.subscription) && Kept(row.seats, d.seats, 0, was.seats)
          && row.periodStart == (if d.periodStart > 0 then Some(d.periodStart) else was.periodStart)
          && row.periodEnd == (if d.periodEnd > 0 then Some(d.periodEnd) else was.periodEnd)
          && row.cancelAtPeriodEnd == d.cancelAtPeriodEnd && row.status == NormalizeStatus(d.status)
          && row.tier == ReadPlanTier(after, d.org) == applied.toTier == TierOf(d)
          && applied.fromTier == ReadPlanTier(db, d.org) && applied.orgStatus == row.orgStatus
          && (row.orgStatus == "active" <==> WithinCap(row.tier, SiteCount(after, d.org))))
  {
  }

  function SetCanceledTx(db: Db, org: string): (Db, Applied) {
    var orgStatus := StatusFor(db, org, FREE);
    var subs := if org in db.subs then
        db.subs[org := db.subs[org].(tier := FREE, status := "canceled", cancelAtPeriodEnd := false,
                                     orgStatus := orgStatus)]
      else db.subs;
    var orgMeta := if org in db.orgMeta then db.orgMeta[org := FREE] else db.orgMeta;
    (db.(subs := subs, orgMeta := orgMeta), Applied(org, ReadPlanTier(db, org), FREE, orgStatus))
  }

  /** A cancellation makes the org free in both tables and keeps who its customer is. */
  lemma CancelStores(db: Db, org: string)
    ensures var (after, applied) := SetCanceledTx(db, org);
      && ReadPlanTier(after, org) == FREE == applied.toTier && applied.fromTier == ReadPlanTier(db, org)
      && after.subs - {org} == db.subs - {org} && after.orgMeta - {org} == db.orgMeta - {org}
      && after.subs.Keys == db.subs.Keys && after.orgMeta.Keys == db.orgMeta.Keys
      && (org in db.subs ==>
            var row, was := after.subs[org], db.subs[org];
            && PlanGateTier(after, org) == FREE && !Entitled(row.status) && !row.cancelAtPeriodEnd
            && row.customer == was.customer && row.subscription == was.subscription && row.seats == was.seats
            && row.periodStart == was.periodStart && row.periodEnd == was.periodEnd
            && (row.orgStatus == "active" <==> WithinCap(FREE, SiteCount(after, org))))
  {
  }

  predicate Upserts(kind: string) {
    kind == "checkout.session.completed" || kind == "customer.subscription.created"
    || kind == "customer.subscription.updated"
  }

  function ApplyEvent(db: Db, ev: Event): Result<(Db, Applied)> {
    var d := ev.data;
    if Upserts(ev.kind) && d.unknownPrice then Err(UnknownPrice)
    else if Upserts(ev.kind) && Entitled(d.status) then
      if d.org == "" then Err(EmptyOrg) else UpsertTx(db, d)
    else if Upserts(ev.kind) || ev.kind == "customer.subscription.deleted" then
      if d.org == "" then Err(EmptyOrg) else Ok(SetCanceledTx(db, d.org))
    else Ok((db, Applied("", "", "", "")))
  }

  datatype Outcome = Committed(applied: Applied) | Duplicate | Failed(error: Error)

  /** One delivery whose database calls all succeed. */
  function Deliver(db: Db, ev: Event): (Db, Outcome) {
    if ev.id in db.ledger then (db, Duplicate)
    else match ApplyEvent(db, ev)
      case Err(error) => (db, Failed(error))
      case Ok((db', applied)) => (db'.(ledger := db'.ledger + {ev.id}), Committed(applied))
  }

  // ---- Failing calls -----------------------------------------------------------

  /** The database calls of one delivery, any of which may fail. */
  datatype Call = Begin | InsertLedger | SetOrgContext | ReadTier | ProbeCustomer | CountSites
                | WriteSubscription | WriteOrgMeta | Commit

  /** Sites are counted only for a tier that has a cap. */
  predicate CountFails(tier: string, fails: set<Call>) { CountSites in fails && SiteCapForTier(tier).Some? }

  /**
   * An upsert with failing calls. A probe that fails leaves its variable blank, and the
   * blank is looked at before the error: the event is refused as if no customer were stored.
   */
  function TryUpsert(db: Db, d: EventData, fails: set<Call>): Result<(Db, Applied)> {
    if d.org == "" then Err(EmptyOrg)
    else if SetOrgContext in fails || ReadTier in fails then Err(Transient)
    else if d.customer == "" && (ProbeCustomer in fails || NoCustomer(db, d.org)) then Err(Unfulfillable)
    else if CountFails(TierOf(d), fails) || WriteSubscription in fails then Err(Transient)
    else if UpsertTx(db, d).Ok? && WriteOrgMeta in fails then Err(Transient)
    else UpsertTx(db, d)
  }

  function TryCancel(db: Db, org: string, fails: set<Call>): Result<(Db, Applied)> {
    if org == "" then Err(EmptyOrg)
    else if SetOrgContext in fails || ReadTier in fails || CountSites in fails then Err(Transient)
    else if WriteSubscription in fails || WriteOrgMeta in fails then Err(Transient)
    else Ok(SetCanceledTx(db, org))
  }

  function TryApply(db: Db, ev: Event, fails: set<Call>): Result<(Db, Applied)> {
    if Upserts(ev.kind) && ev.data.unknownPrice then Err(UnknownPrice)
    else if Upserts(ev.kind) && Entitled(ev.data.status) then TryUpsert(db, ev.data, fails)
    else if Upserts(ev.kind) || ev.kind == "customer.subscription.deleted" then TryCancel(db, ev.data.org, fails)
    else Ok((db, Applied("", "", "", "")))
  }

  /** One delivery, whichever of its calls fail. */
  function TryDeliver(db: Db, ev: Event, fails: set<Call>): (Db, Outcome) {
    if Begin in fails || InsertLedger in fails then (db, Failed(Transient))
    else if ev.id in db.ledger then (db, if Commit in fails then Failed(Transient) else Duplicate)
    else match TryApply(db, ev, fails)
      case Err(error) => (db, Failed(error))
      case Ok((db', applied)) =>
        if Commit in fails then (db, Failed(Transient))
        else (db'.(ledger := db'.ledger + {ev.id}), Committed(applied))
  }

  /** The probe of a stored customer fails where there is one. */
  predicate ProbeMisleads(db: Db, ev: Event, fails: set<Call>) {
    && ProbeCustomer in fails && ev.data.customer == "" && !NoCustomer(db, ev.data.org)
    && Upserts(ev.kind) && !ev.data.unknownPrice && Entitled(ev.data.status) && ev.data.org != ""
    && ev.id !in db.ledger
    && Begin !in fails && InsertLedger !in fails && SetOrgContext !in fails && ReadTier !in fails
  }

  /** With failing calls a delivery is whole, or nothing with a transient error, or misled by its probe. */
  lemma WholeOrNothing(db: Db, ev: Event, fails: set<Call>)
    ensures var tried := TryDeliver(db, ev, fails);
      || tried == Deliver(db, ev) || tried == (db, Failed(Transient))
      || (ProbeMisleads(db, ev, fails) && tried == (db, Failed(Unfulfillable)))
    ensures fails == {} ==> TryDeliver(db, ev, fails) == Deliver(db, ev)
  {
    if Upserts(ev.kind) && !ev.data.unknownPrice && Entitled(ev.data.status) && ev.data.org != "" {
      assert TryUpsert(db, ev.data, fails) == UpsertTx(db, ev.data) || TryUpsert(db, ev.data, fails) == Err(Transient)
        || TryUpsert(db, ev.data, fails) == Err(Unfulfillable);
    }
  }

  const WRITES: set<Call> := {SetOrgContext, ReadTier, WriteSubscription, WriteOrgMeta}

  function UpsertCalls(d: EventData): set<Call> {
    WRITES + (if d.customer == "" then {ProbeCustomer} else {})
    + (if d.tier in {"", "free", "pro"} then {CountSites} else {})
  }

  /** The database calls a delivery makes between its ledger insert and its commit, if none of them fails. */
  function CallsMade(ev: Event): set<Call> {
    if ev.kind == "customer.subscription.deleted" then WRITES + {CountSites}
    else if ev.kind !in {"checkout.session.completed", "customer.subscription.created", "customer.subscription.updated"}
    then {}
    else if ev.data.status in {"active", "trialing", "past_due"} then UpsertCalls(ev.data)
    else WRITES + {CountSites}
  }

  lemma UpsertsExactly(db: Db, d: EventData, fails: set<Call>)
    ensures TryUpsert(db, d, fails).Ok? <==> d.org != "" && UpsertTx(db, d).Ok? && fails !! UpsertCalls(d)
  {
    WritesFail(fails);
  }

  lemma WritesFail(fails: set<Call>)
    ensures fails !! WRITES <==>
      SetOrgContext !in fails && ReadTier !in fails && WriteSubscription !in fails && WriteOrgMeta !in fails
  {
  }

  lemma AppliesExactly(db: Db, ev: Event, fails: set<Call>)
    ensures TryApply(db, ev, fails).Ok? <==> ApplyEvent(db, ev).Ok? && fails !! CallsMade(ev)
  {
    WritesFail(fails);
    UpsertsExactly(db, ev.data, fails);
  }

  /** A delivery commits exactly when it would without failures and none of the calls it makes fails. */
  lemma CommitsExactly(db: Db, ev: Event, fails: set<Call>)
    ensures TryDeliver(db, ev, fails).1.Committed? <==>
      Deliver(db, ev).1.Committed? && fails !! {Begin, InsertLedger, Commit} + CallsMade(ev)
  {
    AppliesExactly(db, ev, fails);
  }

  /** Another org holds the customer, or the subscription, that an event would give its own. */
  predicate Collides(db: Db, d: EventData) {
    var customer := if d.customer == "" && d.org in db.subs then db.subs[d.org].customer else d.customer;
    var subscription :=
      if d.subscription == "" && d.org in db.subs then db.subs[d.org].subscription else d.subscription;
    exists o :: o in db.subs && o != d.org
      && (db.subs[o].customer == customer || (subscription != "" && db.subs[o].subscription == subscription))
  }

  /** What the tables cannot take: no customer to bill, a tier or an org that does not exist, somebody else's ids. */
  predicate Misfits(db: Db, d: EventData) {
    || (d.customer == "" && (d.org !in db.subs || db.subs[d.org].customer == ""))
    || d.tier !in {"", "free", "pro", "business", "enterprise"} || d.org !in db.orgMeta || Collides(db, d)
  }

  lemma UpsertRefusedExactly(db: Db, d: EventData)
    ensures UpsertTx(db, d).Err? <==> Misfits(db, d)
  {
    var tier := TierOf(d);
    var row := Merge(d, tier, StatusFor(db, d.org, tier), Find(db.subs, d.org));
    assert Taken(db.subs, d.org, row) <==> Collides(db, d);
  }

  /** Which events are refused: an unknown price, no org, or a paying subscription the tables cannot take. */
  lemma RefusedExactly(db: Db, ev: Event)
    ensures var d := ev.data;
      var pays :=
        ev.kind in {"checkout.session.completed", "customer.subscription.created", "customer.subscription.updated"};
      var handled := pays || ev.kind == "customer.subscription.deleted";
      ApplyEvent(db, ev).Err? <==>
        || (pays && d.unknownPrice) || (handled && d.org == "")
        || (pays && d.status in {"active", "trialing", "past_due"} && Misfits(db, d))
  {
    UpsertRefusedExactly(db, ev.data);
  }

  /**
   * A refusal as permanent, which stops the retries, is a refusal the event deserves exactly
   * when the event names a customer, or its probe did not fail, or no customer is stored.
   */
  lemma PermanentRefusalExactly(db: Db, ev: Event, fails: set<Call>)
    requires TryDeliver(db, ev, fails).1 == Failed(Unfulfillable)
    ensures Deliver(db, ev).1 == Failed(Unfulfillable) <==>
      ev.data.customer != "" || ProbeCustomer !in fails || NoCustomer(db, ev.data.org)
  {
    WholeOrNothing(db, ev, fails);
  }

  /** So every permanent refusal is deserved exactly when no probe misleads. */
  lemma RefusalsDeservedExactly(db: Db, ev: Event, fails: set<Call>)
    ensures (TryDeliver(db, ev, fails).1 == Failed(Unfulfillable) ==> Deliver(db, ev).1 == Failed(Unfulfillable))
       <==> !ProbeMisleads(db, ev, fails)
  {
    WholeOrNothing(db, ev, fails);
  }

  /** A paying org's renewal, which its next delivery would commit, is refused for good when the probe fails. */
  lemma RenewalIsLost() returns (db: Db, ev: Event)
    ensures "acme" in db.subs && db.subs["acme"].customer == "cus_1" && ev.data.customer == ""
    ensures TryDeliver(db, ev, {ProbeCustomer}) == (db, Failed(Unfulfillable)) && Deliver(db, ev).1.Committed?
  {
    var row := Row("cus_1", "sub_1", PRO, 1, "active", false, None, None, "active");
    db := Db({}, map["acme" := row], map["acme" := PRO], map[]);
    ev := Event("evt_1", "customer.subscription.updated",
                EventData("acme", "", "sub_1", PRO, 2, "active", 0, 0, false, false));
    assert !Taken(db.subs, "acme", Merge(ev.data, PRO, "active", Some(row)));
  }

  // ---- The edge flag -----------------------------------------------------------

  /** Absence is the signal that an org is served. */
  function SetOrgStatus(edge: map<string, string>, org: string, status: string): map<string, string> {
    if org == "" then edge
    else if status == "" || status == "active" then edge - {org}
    else edge[org := status]
  }

  /** The tables, the edge flags, and the orgs whose last projection write failed. */
  datatype World = World(db: Db, edge: map<string, string>, stale: set<string>)

  /** A delivery, and after a commit the best-effort write of the flag. */
  function Receive(w: World, ev: Event, fails: set<Call>, projectionOk: bool): World {
    var (db, outcome) := TryDeliver(w.db, ev, fails);
    if !outcome.Committed? || outcome.applied.org == "" then w.(db := db)
    else
      var org, status := outcome.applied.org, outcome.applied.orgStatus;
      if projectionOk then World(db, SetOrgStatus(w.edge, org, status), w.stale - {org})
      else World(db, w.edge, w.stale + {org})
  }

  // ---- The store, statement by statement ---------------------------------------

  class BillingStore {
    var ledger: set<string>
    var subs: map<string, Row>
    var orgMeta: map<string, string>
    var sites: map<string, nat>
    var edge: map<string, string>
    /** What the open transaction's adapter captured for the post-commit hooks. */
    var sink: Applied
    ghost var stale: set<string>

    constructor (orgMeta: map<string, string>, sites: map<string, nat>)
      ensures Now() == World(Db({}, map[], orgMeta, sites), map[], {})
    {
      ledger, subs, edge, stale := {}, map[], map[], {};
      this.orgMeta, this.sites := orgMeta, sites;
      sink := Applied("", "", "", "");
    }

    function Tables(): Db
      reads this
    {
      Db(ledger, subs, orgMeta, sites)
    }

    ghost function Now(): World
      reads this
    {
      World(Tables(), edge, stale)
    }

    /** The open transaction did what `tried` says; on an error it may be half done. */
    ghost predicate Did(r: Result<()>, tried: Result<(Db, Applied)>)
      reads this
    {
      match tried
      case Ok((db, applied)) => r.Ok? && Tables() == db && sink == applied
      case Err(error) => r == Err(error)
    }

    /** The upsert path inside an open transaction. */
    method UpsertSubscription(d: EventData, fails: set<Call>) returns (r: Result<()>)
      modifies this`subs, this`orgMeta, this`sink
      ensures Did(r, TryUpsert(old(Tables()), d, fails))
    {
      if d.org == "" { return Err(EmptyOrg); }
      if SetOrgContext in fails { return Err(Transient); }
      var tier := if d.tier == "" then FREE else d.tier;
      if ReadTier in fails { return Err(Transient); }
      var fromTier := ReadPlanTier(Tables(), d.org);
      if d.customer == "" {
        var existing := "";
        if ProbeCustomer !in fails && d.org in subs { existing := subs[d.org].customer; }
        if existing == "" { return Err(Unfulfillable); }
      }
      if SiteCapForTier(tier).Some? && CountSites in fails { return Err(Transient); }
      var orgStatus := StatusFor(Tables(), d.org, tier);
      if WriteSubscription in fails { return Err(Transient); }
      var row := Merge(d, tier, orgStatus, Find(subs, d.org));
      if !KnownTier(tier) || d.org !in orgMeta || Taken(subs, d.org, row) { return Err(Constraint); }
      subs := subs[d.org := row];
      if WriteOrgMeta in fails { return Err(Transient); }
      orgMeta := orgMeta[d.org := tier];
      sink := Applied(d.org, fromTier, tier, orgStatus);
      return Ok(());
    }

    method SetCanceled(org: string, fails: set<Call>) returns (r: Result<()>)
      modifies this`subs, this`orgMeta, this`sink
      ensures Did(r, TryCancel(old(Tables()), org, fails))
    {
      if org == "" { return Err(EmptyOrg); }
      if SetOrgContext in fails || ReadTier in fails || CountSites in fails { return Err(Transient); }
      var fromTier := ReadPlanTier(Tables(), org);
      var orgStatus := StatusFor(Tables(), org, FREE);
      if WriteSubscription in fails { return Err(Transient); }
      if org in subs {
        subs := subs[org := subs[org].(tier := FREE, status := "canceled", cancelAtPeriodEnd := false,
                                       orgStatus := orgStatus)];
      }
      if WriteOrgMeta in fails { return Err(Transient); }
      if org in orgMeta { orgMeta := orgMeta[org := FREE]; }
      sink := Applied(org, fromTier, FREE, orgStatus);
      return Ok(());
    }

    method ApplyInTx(ev: Event, fails: set<Call>) returns (r: Result<()>)
      modifies this`subs, this`orgMeta, this`sink
      ensures Did(r, TryApply(old(Tables()), ev, fails))
    {
      if Upserts(ev.kind) {
        if ev.data.unknownPrice { return Err(UnknownPrice); }
        if !Entitled(ev.data.status) {
          r := SetCanceled(ev.data.org, fails);
        } else {
          r := UpsertSubscription(ev.data, fails);
        }
      } else if ev.kind == "customer.subscription.deleted" {
        r := SetCanceled(ev.data.org, fails);
      } else {
        sink := Applied("", "", "", "");
        r := Ok(());
      }
    }

    /**
     * Dedupe and apply in one transaction, then project the status: whatever call fails,
     * one `Receive` of the tables and the edge.
     */
    method ProcessEvent(ev: Event, fails: set<Call>, projectionOk: bool) returns (outcome: Outcome)
      modifies this
      ensures outcome == TryDeliver(old(Tables()), ev, fails).1
      ensures Now() == Receive(old(Now()), ev, fails, projectionOk)
    {
      if Begin in fails || InsertLedger in fails { return Failed(Transient); }
      var saved := Tables();
      if ev.id in ledger {
        return if Commit in fails then Failed(Transient) else Duplicate;
      }
      ledger := ledger + {ev.id};
      LedgerDoesNotMatter(saved, ev, fails);
      var r := ApplyInTx(ev, fails);
      if r.Err? || Commit in fails {
        // The deferred rollback.
        ledger, subs, orgMeta, sites := saved.ledger, saved.subs, saved.orgMeta, saved.sites;
        return Failed(if r.Err? then r.error else Transient);
      }
      if sink.org != "" {
        if projectionOk && sink.orgStatus != "" {
          edge, stale := SetOrgStatus(edge, sink.org, sink.orgStatus), stale - {sink.org};
        } else {
          stale := stale + {sink.org};
        }
      }
      outcome := Committed(sink);
    }

    /** Records a customer before the first subscription exists; never touches org_meta. */
    method SaveCustomerID(org: string, customer: string, fails: bool) returns (r: Result<()>)
      modifies this`subs
      ensures Now() == old(Now()).(db := if fails then old(Tables()) else SaveCustomer(old(Tables()), org, customer))
      ensures r.Ok? <==> !fails && MaySave(old(Tables()), org, customer)
    {
      if org == "" || customer == "" { return Err(EmptyOrg); }
      if fails { return Err(Transient); }
      if org !in orgMeta || CustomerTaken(subs, org, customer) { return Err(Constraint); }
      subs := if org in subs then subs[org := subs[org].(customer := customer)]
              else subs[org := Row(customer, "", FREE, 0, "active", false, None, None, "active")];
      r := Ok(());
    }
  }

  // ---- The ledger plays no part in applying an event ---------------------------

  ghost predicate SameBut(a: Result<(Db, Applied)>, b: Result<(Db, Applied)>, was: set<string>, ledger: set<string>) {
    match a
    case Err(error) => b == Err(error)
    case Ok((db, applied)) => b == Ok((db.(ledger := ledger), applied)) && db.ledger == was
  }

  lemma UpsertIgnoresLedger(db: Db, d: EventData, ledger: set<string>)
    ensures SameBut(UpsertTx(db, d), UpsertTx(db.(ledger := ledger), d), db.ledger, ledger)
  {
    assert StatusFor(db.(ledger := ledger), d.org, TierOf(d)) == StatusFor(db, d.org, TierOf(d));
    assert ReadPlanTier(db.(ledger := ledger), d.org) == ReadPlanTier(db, d.org);
  }

  lemma CancelIgnoresLedger(db: Db, org: string, ledger: set<string>)
    ensures SameBut(Ok(SetCanceledTx(db, org)), Ok(SetCanceledTx(db.(ledger := ledger), org)), db.ledger, ledger)
  {
    assert StatusFor(db.(ledger := ledger), org, FREE) == StatusFor(db, org, FREE);
  }

  lemma TryUpsertIgnoresLedger(db: Db, d: EventData, ledger: set<string>, fails: set<Call>)
    ensures SameBut(TryUpsert(db, d, fails), TryUpsert(db.(ledger := ledger), d, fails), db.ledger, ledger)
  {
    UpsertIgnoresLedger(db, d, ledger);
  }

  /** Applying an event neither reads nor writes the ledger. */
  lemma LedgerDoesNotMatter(db: Db, ev: Event, fails: set<Call>)
    ensures var ledger := db.ledger + {ev.id};
      SameBut(TryApply(db, ev, fails), TryApply(db.(ledger := ledger), ev, fails), db.ledger, ledger)
  {
    TryUpsertIgnoresLedger(db, ev.data, db.ledger + {ev.id}, fails);
    CancelIgnoresLedger(db, ev.data.org, db.ledger + {ev.id});
  }

  predicate CustomerTaken(subs: map<string, Row>, org: string, customer: string) {
    exists o :: o in subs && o != org && subs[o].customer == customer
  }

  predicate MaySave(db: Db, org: string, customer: string) {
    org != "" && customer != "" && org in db.orgMeta && !CustomerTaken(db.subs, org, customer)
  }

  function SaveCustomer(db: Db, org: string, customer: string): Db {
    if !MaySave(db, org, customer) then db
    else if org in db.subs then db.(subs := db.subs[org := db.subs[org].(customer := customer)])
    else db.(subs := db.subs[org := Row(customer, "", FREE, 0, "active", false, None, None, "active")])
  }
}

/** Every run of the store: deliveries in any order, repeated and failing, mixed with site changes. */
module BillingRuns {
  import opened Bytes
  import opened Plans
  import opened Stripe
  import opened Store

  datatype Step =
    | Webhook(ev: Event, fails: set<Call>, projectionOk: bool)
    | Save(org: string, customer: string)
    | CreateSite(org: string)
    | DeleteSite(org: string)

  function Exec(w: World, step: Step): World {
    match step
    case Webhook(ev, fails, projectionOk) => Receive(w, ev, fails, projectionOk)
    case Save(org, customer) => w.(db := SaveCustomer(w.db, org, customer))
    case CreateSite(org) =>
      // COUNT, policy and INSERT in one critical section, on org_meta's tier.
      var n := SiteCount(w.db, org);
      if org in w.db.orgMeta && AllowSites(w.db.orgMeta[org], n, 1) then
        w.(db := w.db.(sites := w.db.sites[org := n + 1]))
      else w
    case DeleteSite(org) =>
      var n := SiteCount(w.db, org);
      if n > 0 then w.(db := w.db.(sites := w.db.sites[org := n - 1])) else w
  }

  function Run(w: World, steps: seq<Step>): World {
    if steps == [] then w else Exec(Run(w, steps[..|steps| - 1]), steps[|steps| - 1])
  }

  // ---- What every step keeps ---------------------------------------------------

  /** What holds of one org, from its org_meta tier, its row, its sites and its edge flag. */
  predicate OrgInv(meta: Option<string>, row: Option<Row>, sites: nat, flag: Option<string>, stale: bool) {
    && (meta.None? ==> row.None? && sites == 0)
    && (meta.Some? ==> KnownTier(meta.value))
    && (row.Some? ==>
          && row.value.customer != ""
          && row.value.tier == meta.value
          && (row.value.tier != FREE ==> Entitled(row.value.status))
          && (row.value.orgStatus == "active" || row.value.orgStatus == "over_limit")
          && (row.value.orgStatus == "active" ==> WithinCap(row.value.tier, sites)))
    && (meta.Some? && row.None? ==> meta.value == FREE && WithinCap(FREE, sites))
    && (!stale ==> flag == if row.Some? && row.value.orgStatus != "active" then Some(row.value.orgStatus) else None)
  }

  predicate At(w: World, org: string) {
    OrgInv(Find(w.db.orgMeta, org), Find(w.db.subs, org), SiteCount(w.db, org), Find(w.edge, org), org in w.stale)
  }

  ghost predicate Inv(w: World) { forall org :: At(w, org) }

  /** Every org's org_meta row present and free, nothing paid, site counts within the free cap. */
  ghost predicate Initial(w: World) {
    && w.db.ledger == {} && w.db.subs == map[] && w.edge == map[] && w.stale == {}
    && (forall org :: org in w.db.orgMeta ==> w.db.orgMeta[org] == FREE)
    && (forall org :: org in w.db.sites ==> org in w.db.orgMeta && w.db.sites[org] <= 10)
  }

  lemma InitialHolds(w: World)
    requires Initial(w)
    ensures Inv(w)
  {
    forall org ensures At(w, org) {}
  }

  /** The edge flag a status asks for. */
  function Flag(status: string): Option<string> { if status == "active" then None else Some(status) }

  /** A committed change: one org, left consistent with the status it reports; nothing else. */
  ghost predicate ChangesOneOrg(db: Db, db': Db, a: Applied) {
    && db'.sites == db.sites
    && (a.org == "" ==> db'.subs == db.subs && db'.orgMeta == db.orgMeta)
    && (a.org != "" ==> a.orgStatus != "")
    && (a.org != "" ==>
         OrgInv(Find(db'.orgMeta, a.org), Find(db'.subs, a.org), SiteCount(db', a.org), Flag(a.orgStatus), false))
    && (forall o :: o != a.org ==> Find(db'.orgMeta, o) == Find(db.orgMeta, o) && Find(db'.subs, o) == Find(db.subs, o))
  }

  /** Consistent, whatever its edge flag. */
  predicate TablesInv(db: Db, org: string) {
    OrgInv(Find(db.orgMeta, org), Find(db.subs, org), SiteCount(db, org), None, true)
  }

  lemma UpsertChangesOneOrg(db: Db, d: EventData)
    requires UpsertTx(db, d).Ok? && Entitled(d.status) && d.org != "" && TablesInv(db, d.org)
    ensures ChangesOneOrg(db, UpsertTx(db, d).value.0, UpsertTx(db, d).value.1)
  {
  }

  lemma CancelChangesOneOrg(db: Db, org: string)
    requires org != "" && TablesInv(db, org)
    ensures ChangesOneOrg(db, SetCanceledTx(db, org).0, SetCanceledTx(db, org).1)
  {
  }

  lemma ApplyChangesOneOrg(db: Db, ev: Event)
    requires ApplyEvent(db, ev).Ok? && TablesInv(db, ev.data.org)
    ensures ChangesOneOrg(db, ApplyEvent(db, ev).value.0, ApplyEvent(db, ev).value.1)
  {
    if Upserts(ev.kind) && Entitled(ev.data.status) {
      UpsertChangesOneOrg(db, ev.data);
    } else if Upserts(ev.kind) || ev.kind == "customer.subscription.deleted" {
      CancelChangesOneOrg(db, ev.data.org);
    }
  }

  lemma CommitKeeps(w: World, w': World, a: Applied)
    requires Inv(w) && ChangesOneOrg(w.db, w'.db, a)
    requires a.org == "" ==> w'.edge == w.edge && w'.stale == w.stale
    requires a.org != "" ==>
      || (w'.edge == SetOrgStatus(w.edge, a.org, a.orgStatus) && w'.stale == w.stale - {a.org})
      || (w'.edge == w.edge && w'.stale == w.stale + {a.org})
    ensures Inv(w')
  {
    forall org ensures At(w', org) { assert At(w, org); }
  }

  lemma ReceiveKeeps(w: World, ev: Event, fails: set<Call>, projectionOk: bool)
    requires Inv(w)
    ensures Inv(Receive(w, ev, fails, projectionOk))
  {
    WholeOrNothing(w.db, ev, fails);
    if TryDeliver(w.db, ev, fails).1.Committed? {
      assert At(w, ev.data.org);
      ApplyChangesOneOrg(w.db, ev);
      CommitKeeps(w, Receive(w, ev, fails, projectionOk), ApplyEvent(w.db, ev).value.1);
    }
  }

  lemma SaveKeeps(w: World, org: string, customer: string)
    requires Inv(w)
    ensures Inv(w.(db := SaveCustomer(w.db, org, customer)))
  {
    forall o ensures At(w.(db := SaveCustomer(w.db, org, customer)), o) { assert At(w, o); }
  }

  lemma SitesKeep(w: World, step: Step)
    requires Inv(w) && (step.CreateSite? || step.DeleteSite?)
    ensures Inv(Exec(w, step))
  {
    forall o ensures At(Exec(w, step), o) { assert At(w, o); }
  }

  lemma ExecKeeps(w: World, step: Step)
    requires Inv(w)
    ensures Inv(Exec(w, step))
  {
    match step
    case Webhook(ev, fails, projectionOk) => ReceiveKeeps(w, ev, fails, projectionOk);
    case Save(org, customer) => SaveKeeps(w, org, customer);
    case CreateSite(_) => SitesKeep(w, step);
    case DeleteSite(_) => SitesKeep(w, step);
  }

  lemma {:induction false} RunKeeps(w: World, steps: seq<Step>)
    requires Inv(w)
    ensures Inv(Run(w, steps))
  {
    if steps != [] {
      RunKeeps(w, steps[..|steps| - 1]);
      ExecKeeps(Run(w, steps[..|steps| - 1]), steps[|steps| - 1]);
    }
  }

  /**
   * In every reachable state: the two tier reads agree and name a known tier; a paid
   * tier has a paying status; an active row is within its cap; and the edge flag is set
   * exactly when the row is not active, for every org whose last projection write landed.
   */
  lemma ReachableStates(w0: World, steps: seq<Step>, org: string)
    requires Initial(w0)
    ensures var w := Run(w0, steps);
      && PlanGateTier(w.db, org) == ReadPlanTier(w.db, org) && KnownTier(PlanGateTier(w.db, org))
      && (PlanGateTier(w.db, org) != FREE ==>
            org in w.db.subs && w.db.subs[org].status in {"active", "trialing", "past_due"})
      && ((org in w.db.subs && w.db.subs[org].orgStatus == "active") ==>
            WithinCap(PlanGateTier(w.db, org), SiteCount(w.db, org)))
      && (org !in w.stale ==> (org in w.edge <==> org in w.db.subs && w.db.subs[org].orgStatus != "active"))
  {
    InitialHolds(w0);
    RunKeeps(w0, steps);
    assert At(Run(w0, steps), org);
  }

  // ---- Nobody shares a customer ------------------------------------------------

  /** No two orgs hold the same customer, or the same subscription. */
  ghost predicate NobodyShares(subs: map<string, Row>) {
    forall o, p :: o in subs && p in subs && o != p ==>
      subs[o].customer != subs[p].customer
      && (subs[o].subscription != "" ==> subs[o].subscription != subs[p].subscription)
  }

  lemma ApplySharesNothing(db: Db, ev: Event)
    requires NobodyShares(db.subs) && ApplyEvent(db, ev).Ok?
    ensures NobodyShares(ApplyEvent(db, ev).value.0.subs)
  {
    if Upserts(ev.kind) && Entitled(ev.data.status) {
      var d := ev.data;
      var row := Merge(d, TierOf(d), StatusFor(db, d.org, TierOf(d)), Find(db.subs, d.org));
      assert !Taken(db.subs, d.org, row);
      assert UpsertTx(db, d).value.0.subs == db.subs[d.org := row];
    }
  }

  lemma SaveSharesNothing(db: Db, org: string, customer: string)
    requires NobodyShares(db.subs)
    ensures NobodyShares(SaveCustomer(db, org, customer).subs)
  {
  }

  lemma ExecSharesNothing(w: World, step: Step)
    requires NobodyShares(w.db.subs)
    ensures NobodyShares(Exec(w, step).db.subs)
  {
    match step
    case Webhook(ev, fails, _) =>
      WholeOrNothing(w.db, ev, fails);
      if TryDeliver(w.db, ev, fails).1.Committed? { ApplySharesNothing(w.db, ev); }
    case Save(org, customer) => SaveSharesNothing(w.db, org, customer);
    case _ =>
  }

  /** In every reachable state a customer, and a subscription, belongs to one org. */
  lemma {:induction false} CustomersAreDistinct(w0: World, steps: seq<Step>)
    requires Initial(w0)
    ensures NobodyShares(Run(w0, steps).db.subs)
  {
    if steps != [] {
      var n := |steps| - 1;
      var w := Run(w0, steps[..n]);
      CustomersAreDistinct(w0, steps[..n]);
      ExecSharesNothing(w, steps[n]);
    }
  }

  /** Saving a customer gives an org its customer and nothing else; an org without a row gets a Free one. */
  lemma SaveStores(db: Db, org: string, customer: string)
    ensures var after := SaveCustomer(db, org, customer);
      && (after != db ==> org != "" && customer != "" && org in db.orgMeta && after.subs - {org} == db.subs - {org})
      && after == db.(subs := after.subs)
      && (MaySave(db, org, customer) ==>
            org in after.subs && after.subs[org].customer == customer
            && after.subs[org] == (if org in db.subs then db.subs[org].(customer := customer)
                                   else Row(customer, "", "free", 0, "active", false, None, None, "active")))
  {
  }

  // ---- What is never blanked ---------------------------------------------------

  predicate NotBlanked(row: Row, later: Row) {
    && (row.customer != "" ==> later.customer != "")
    && (row.subscription != "" ==> later.subscription != "")
    && (row.periodStart.Some? ==> later.periodStart.Some?)
    && (row.periodEnd.Some? ==> later.periodEnd.Some?)
    && (row.seats != 0 ==> later.seats != 0)
  }

  lemma ApplyBlanksNothing(db: Db, ev: Event, org: string)
    requires org in db.subs && ApplyEvent(db, ev).Ok?
    ensures var db' := ApplyEvent(db, ev).value.0;
      org in db'.subs && NotBlanked(db.subs[org], db'.subs[org])
  {
    if Upserts(ev.kind) && Entitled(ev.data.status) {
      var db' := UpsertTx(db, ev.data).value.0;
      assert org in db'.subs && NotBlanked(db.subs[org], db'.subs[org]);
    } else if Upserts(ev.kind) || ev.kind == "customer.subscription.deleted" {
      var db' := SetCanceledTx(db, ev.data.org).0;
      assert org in db'.subs && NotBlanked(db.subs[org], db'.subs[org]);
    }
  }

  lemma ExecBlanksNothing(w: World, step: Step, org: string)
    requires org in w.db.subs
    ensures org in Exec(w, step).db.subs && NotBlanked(w.db.subs[org], Exec(w, step).db.subs[org])
  {
    ExecLogged(w, step);
    if Commits(w, step) { ApplyBlanksNothing(w.db, step.ev, org); }
  }

  lemma {:induction false} RunBlanksNothing(w: World, steps: seq<Step>, org: string)
    requires org in w.db.subs
    ensures org in Run(w, steps).db.subs && NotBlanked(w.db.subs[org], Run(w, steps).db.subs[org])
  {
    if steps != [] {
      RunBlanksNothing(w, steps[..|steps| - 1], org);
      ExecBlanksNothing(Run(w, steps[..|steps| - 1]), steps[|steps| - 1], org);
    }
  }

  // ---- Exactly once ------------------------------------------------------------

  /** A delivery that is refused, or lost to a failing call, changes nothing at all. */
  lemma FailureChangesNothing(w: World, ev: Event, fails: set<Call>, projectionOk: bool)
    requires !TryDeliver(w.db, ev, fails).1.Committed?
    ensures Receive(w, ev, fails, projectionOk) == w
  {
  }

  predicate Commits(w: World, step: Step) {
    step.Webhook? && TryDeliver(w.db, step.ev, step.fails).1.Committed?
  }

  /** The steps that took effect: committed deliveries, and everything that is not a delivery. */
  function Log(w: World, steps: seq<Step>): seq<Step> {
    if steps == [] then []
    else
      var front, step := steps[..|steps| - 1], steps[|steps| - 1];
      if step.Webhook? && !Commits(Run(w, front), step) then Log(w, front) else Log(w, front) + [step]
  }

  /** Apply a log to the tables: no dedupe, no failures. */
  function Replay(db: Db, log: seq<Step>): Db {
    if log == [] then db else ReplayStep(Replay(db, log[..|log| - 1]), log[|log| - 1])
  }

  function ReplayStep(db: Db, step: Step): Db {
    if step.Webhook? then
      match ApplyEvent(db, step.ev)
      case Ok((after, _)) => after.(ledger := after.ledger + {step.ev.id})
      case Err(_) => db
    else Exec(World(db, map[], {}), step).db
  }

  function EventIds(log: seq<Step>): seq<string> {
    if log == [] then []
    else
      var front, step := EventIds(log[..|log| - 1]), log[|log| - 1];
      if step.Webhook? then front + [step.ev.id] else front
  }

  predicate Distinct(s: seq<string>) { forall i, j :: 0 <= i < j < |s| ==> s[i] != s[j] }

  lemma ApplyKeepsLedger(db: Db, ev: Event)
    ensures ApplyEvent(db, ev).Ok? ==> ApplyEvent(db, ev).value.0.ledger == db.ledger
  {
  }

  lemma ExecLogged(w: World, step: Step)
    ensures !step.Webhook? ==> Exec(World(w.db, map[], {}), step).db == Exec(w, step).db
                               && Exec(w, step).db.ledger == w.db.ledger
    ensures step.Webhook? && !Commits(w, step) ==> Exec(w, step) == w
    ensures Commits(w, step) ==>
      && ApplyEvent(w.db, step.ev).Ok? && step.ev.id !in w.db.ledger
      && var after := ApplyEvent(w.db, step.ev).value.0;
         && after.ledger == w.db.ledger
         && Exec(w, step).db == after.(ledger := after.ledger + {step.ev.id})
  {
    if step.Webhook? {
      WholeOrNothing(w.db, step.ev, step.fails);
      ApplyKeepsLedger(w.db, step.ev);
    }
  }

  /** The committed events are distinct, were new, and are now in the ledger. */
  ghost predicate Recorded(initial: set<string>, ledger: set<string>, ids: seq<string>) {
    && Distinct(ids) && (forall id :: id in ids ==> id !in initial)
    && ledger == initial + set id | id in ids
  }

  lemma RecordOne(initial: set<string>, ledger: set<string>, ids: seq<string>, id: string)
    requires Recorded(initial, ledger, ids) && id !in ledger
    ensures Recorded(initial, ledger + {id}, ids + [id])
  {
    assert forall x :: x in ids + [id] <==> x in ids || x == id;
  }

  lemma LogGrows(db: Db, log: seq<Step>, step: Step)
    ensures Replay(db, log + [step]) == ReplayStep(Replay(db, log), step)
    ensures EventIds(log + [step]) == EventIds(log) + if step.Webhook? then [step.ev.id] else []
  {
    assert (log + [step])[..|log|] == log;
  }

  /** A step that takes effect does what replaying it does. */
  lemma StepIsReplayed(w: World, step: Step)
    requires !step.Webhook? || Commits(w, step)
    ensures Exec(w, step).db == ReplayStep(w.db, step)
    ensures Exec(w, step).db.ledger == w.db.ledger + if step.Webhook? then {step.ev.id} else {}
    ensures step.Webhook? ==> step.ev.id !in w.db.ledger
  {
    ExecLogged(w, step);
  }

  /**
   * Whatever the schedule of deliveries, duplicates and failures, the tables are those
   * of applying each committed event exactly once, in commit order.
   */
  lemma {:induction false} ExactlyOnce(w: World, steps: seq<Step>)
    ensures Run(w, steps).db == Replay(w.db, Log(w, steps))
    ensures Recorded(w.db.ledger, Run(w, steps).db.ledger, EventIds(Log(w, steps)))
  {
    if steps != [] {
      var front, step := steps[..|steps| - 1], steps[|steps| - 1];
      var before, log := Run(w, front), Log(w, front);
      ExactlyOnce(w, front);
      if step.Webhook? && !Commits(before, step) {
        ExecLogged(before, step);
      } else {
        StepIsReplayed(before, step);
        LogGrows(w.db, log, step);
        if step.Webhook? { RecordOne(w.db.ledger, before.db.ledger, EventIds(log), step.ev.id); }
      }
    }
  }

  // ---- The tier in force -------------------------------------------------------

  predicate Touches(step: Step, org: string) {
    && step.Webhook? && step.ev.data.org == org
    && (Upserts(step.ev.kind) || step.ev.kind == "customer.subscription.deleted")
  }

  /** The tier an event asks for: a paying subscription's own, else Free. */
  function Grants(ev: Event): string {
    if Upserts(ev.kind) && Entitled(ev.data.status) then TierOf(ev.data) else FREE
  }

  /** What the last event of a log that is about this org grants it; Free before any. */
  function LastGrant(log: seq<Step>, org: string): string {
    if log == [] then FREE
    else if Touches(log[|log| - 1], org) then Grants(log[|log| - 1].ev)
    else LastGrant(log[..|log| - 1], org)
  }

  lemma ApplyGrants(db: Db, ev: Event, fails: set<Call>, org: string)
    requires ApplyEvent(db, ev).Ok?
    ensures ReadPlanTier(ApplyEvent(db, ev).value.0, org) ==
      if Touches(Webhook(ev, fails, true), org) then Grants(ev) else ReadPlanTier(db, org)
  {
  }

  lemma StepGrants(w: World, step: Step, org: string)
    requires !step.Webhook? || Commits(w, step)
    ensures ReadPlanTier(Exec(w, step).db, org)
         == if Touches(step, org) then Grants(step.ev) else ReadPlanTier(w.db, org)
  {
    ExecLogged(w, step);
    if step.Webhook? { ApplyGrants(w.db, step.ev, step.fails, org); }
  }

  lemma {:induction false} ReadIsLastGrant(w0: World, steps: seq<Step>, org: string)
    requires Initial(w0)
    ensures ReadPlanTier(Run(w0, steps).db, org) == LastGrant(Log(w0, steps), org)
  {
    if steps != [] {
      var front, step := steps[..|steps| - 1], steps[|steps| - 1];
      var before, log := Run(w0, front), Log(w0, front);
      ReadIsLastGrant(w0, front, org);
      if step.Webhook? && !Commits(before, step) {
        ExecLogged(before, step);
      } else {
        StepGrants(before, step, org);
        assert (log + [step])[..|log|] == log;
      }
    }
  }

  /** In every reachable state both tier reads give what the last committed event about the org grants. */
  lemma TierIsLastGrant(w0: World, steps: seq<Step>, org: string)
    requires Initial(w0)
    ensures var w := Run(w0, steps);
      PlanGateTier(w.db, org) == ReadPlanTier(w.db, org) == LastGrant(Log(w0, steps), org)
  {
    ReadIsLastGrant(w0, steps, org);
    ReachableStates(w0, steps, org);
  }

  lemma CommitIsLogged(w0: World, steps: seq<Step>, step: Step)
    requires Commits(Run(w0, steps), step)
    ensures Log(w0, steps + [step]) == Log(w0, steps) + [step]
  {
    assert (steps + [step])[..|steps|] == steps;
  }

  lemma LastStepGrants(log: seq<Step>, step: Step, org: string)
    requires Touches(step, org)
    ensures LastGrant(log + [step], org) == Grants(step.ev)
  {
  }

  /** So right after a committed event of a paying subscription both reads give the event's tier. */
  lemma CommittedUpsertGrants(w0: World, steps: seq<Step>, step: Step)
    requires Initial(w0) && Commits(Run(w0, steps), step) && Upserts(step.ev.kind) && Entitled(step.ev.data.status)
    ensures var db := Run(w0, steps + [step]).db;
      PlanGateTier(db, step.ev.data.org) == ReadPlanTier(db, step.ev.data.org) == TierOf(step.ev.data)
  {
    CommitIsLogged(w0, steps, step);
    LastStepGrants(Log(w0, steps), step, step.ev.data.org);
    TierIsLastGrant(w0, steps + [step], step.ev.data.org);
  }

  // ---- Deliveries, by event type and status ------------------------------------

  predicate SubscriptionEvent(kind: string) {
    kind in {"checkout.session.completed", "customer.subscription.created", "customer.subscription.updated"}
  }

  predicate PayingStatus(status: string) { status in {"active", "trialing", "past_due"} }

  lemma ReadsAfter(w0: World, steps: seq<Step>, step: Step, tier: string)
    requires Initial(w0) && Commits(Run(w0, steps), step)
    requires Touches(step, step.ev.data.org) && Grants(step.ev) == tier
    ensures var db := Run(w0, steps + [step]).db;
      PlanGateTier(db, step.ev.data.org) == ReadPlanTier(db, step.ev.data.org) == tier
  {
    CommitIsLogged(w0, steps, step);
    LastStepGrants(Log(w0, steps), step, step.ev.data.org);
    TierIsLastGrant(w0, steps + [step], step.ev.data.org);
  }

  lemma RunLast(w0: World, steps: seq<Step>, step: Step)
    ensures Run(w0, steps + [step]) == Exec(Run(w0, steps), step)
  {
    assert (steps + [step])[..|steps|] == steps;
  }

  lemma RowAfterUpsert(db: Db, ev: Event)
    requires SubscriptionEvent(ev.kind) && PayingStatus(ev.data.status) && ApplyEvent(db, ev).Ok?
    ensures var after := ApplyEvent(db, ev).value.0;
      ev.data.org in after.subs && after.subs[ev.data.org].status == ev.data.status
  {
    UpsertStores(db, ev.data);
  }

  /**
   * Right after a committed delivery of a checkout or subscription event in a paying status,
   * past due included, both tier reads give the event's tier and the row holds that status.
   */
  lemma PayingKeepsTier(w0: World, steps: seq<Step>, step: Step)
    requires Initial(w0) && Commits(Run(w0, steps), step)
    requires step.ev.kind in
      {"checkout.session.completed", "customer.subscription.created", "customer.subscription.updated"}
    requires step.ev.data.status in {"active", "trialing", "past_due"}
    ensures var db, d := Run(w0, steps + [step]).db, step.ev.data;
      && PlanGateTier(db, d.org) == ReadPlanTier(db, d.org) == (if d.tier == "" then "free" else d.tier)
      && d.org in db.subs && db.subs[d.org].status == d.status
  {
    ReadsAfter(w0, steps, step, TierOf(step.ev.data));
    RunLast(w0, steps, step);
    ExecLogged(Run(w0, steps), step);
    RowAfterUpsert(Run(w0, steps).db, step.ev);
  }

  /** In any other status, or on a deletion, both reads give Free and the row, if there is one, is canceled. */
  lemma LapsedIsFree(w0: World, steps: seq<Step>, step: Step)
    requires Initial(w0) && Commits(Run(w0, steps), step)
    requires step.ev.kind == "customer.subscription.deleted"
      || (step.ev.kind in
            {"checkout.session.completed", "customer.subscription.created", "customer.subscription.updated"}
          && step.ev.data.status !in {"active", "trialing", "past_due"})
    ensures var db, d := Run(w0, steps + [step]).db, step.ev.data;
      && PlanGateTier(db, d.org) == ReadPlanTier(db, d.org) == "free"
      && (d.org in db.subs ==> db.subs[d.org].status == "canceled")
  {
    ReadsAfter(w0, steps, step, "free");
    RunLast(w0, steps, step);
    ExecLogged(Run(w0, steps), step);
  }

  /** Any other event is only recorded. */
  lemma OthersAreRecorded(w: World, step: Step)
    requires Commits(w, step)
    requires step.ev.kind !in {"checkout.session.completed", "customer.subscription.created",
                               "customer.subscription.updated", "customer.subscription.deleted"}
    ensures Exec(w, step) == w.(db := w.db.(ledger := w.db.ledger + {step.ev.id}))
  {
  }

  // ---- The published caps ------------------------------------------------------

  /** More sites than the plan has: ten on Free, a hundred on Pro, no limit above. */
  predicate OverCap(tier: string, sites: nat) { (tier == "free" && sites > 10) || (tier == "pro" && sites > 100) }

  lemma CapsArePublished(tier: string, sites: nat)
    ensures KnownTier(tier) <==> tier in {"free", "pro", "business", "enterprise"}
    ensures WithinCap(tier, sites) <==> !OverCap(tier, sites)
    ensures KnownTier(tier) ==> (AllowSites(tier, sites, 1) <==> !OverCap(tier, sites + 1))
  {
  }

  /** In every reachable state an org served at the edge has no more sites than its plan's published cap. */
  lemma ServedIsWithinCap(w0: World, steps: seq<Step>, org: string)
    requires Initial(w0)
    ensures var w := Run(w0, steps);
      org !in w.stale && org !in w.edge ==> !OverCap(ReadPlanTier(w.db, org), SiteCount(w.db, org))
  {
    var w := Run(w0, steps);
    InitialHolds(w0);
    RunKeeps(w0, steps);
    assert At(w, org);
    CapsArePublished(ReadPlanTier(w.db, org), SiteCount(w.db, org));
  }

  /** A site is created exactly when the plan has room for one more. */
  lemma SitesAreGated(w0: World, steps: seq<Step>, org: string)
    requires Initial(w0) && org in Run(w0, steps).db.orgMeta
    ensures var w := Run(w0, steps);
      var n := SiteCount(w.db, org);
      SiteCount(Exec(w, CreateSite(org)).db, org)
        == if OverCap(ReadPlanTier(w.db, org), n + 1) then n else n + 1
  {
    InitialHolds(w0);
    RunKeeps(w0, steps);
    RoomDecides(Run(w0, steps), org);
  }

  lemma RoomDecides(w: World, org: string)
    requires At(w, org) && org in w.db.orgMeta
    ensures var n := SiteCount(w.db, org);
      SiteCount(Exec(w, CreateSite(org)).db, org)
        == if OverCap(ReadPlanTier(w.db, org), n + 1) then n else n + 1
  {
    CapsArePublished(w.db.orgMeta[org], SiteCount(w.db, org));
  }

  /** A committed change of plan marks the org over its limit exactly when it has more sites than the new plan's cap. */
  lemma OverLimitExactly(w0: World, steps: seq<Step>, step: Step)
    requires Initial(w0) && Commits(Run(w0, steps), step) && Touches(step, step.ev.data.org)
    ensures var db, org := Run(w0, steps + [step]).db, step.ev.data.org;
      org in db.subs ==>
        db.subs[org].orgStatus == if OverCap(db.subs[org].tier, SiteCount(db, org)) then "over_limit" else "active"
  {
    RunLast(w0, steps, step);
    ExecLogged(Run(w0, steps), step);
    var db := ApplyEvent(Run(w0, steps).db, step.ev).value.0;
    StatusOfApplied(Run(w0, steps).db, step.ev);
  }

  lemma StatusOfApplied(db: Db, ev: Event)
    requires ApplyEvent(db, ev).Ok? && (Upserts(ev.kind) || ev.kind == "customer.subscription.deleted")
    ensures var after := ApplyEvent(db, ev).value.0;
      ev.data.org in after.subs ==>
        var row := after.subs[ev.data.org];
        row.orgStatus == if OverCap(row.tier, SiteCount(after, ev.data.org)) then "over_limit" else "active"
  {
    CapsArePublished(TierOf(ev.data), SiteCount(db, ev.data.org));
    CapsArePublished("free", SiteCount(db, ev.data.org));
  }
}
