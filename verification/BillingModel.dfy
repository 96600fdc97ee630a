/** The billing rows and the pure meaning of one provider webhook.

    An identifier that the program stores as "string or None" is a string here, with
    `""` for the absent value: the program only ever asks whether it is truthy. Amounts
    are integers in 1/10000 USD, the unit `_decimal` quantises to; times are seconds. */
module BillingModel {
  import opened Common

  datatype Actor = Actor(tenant: string, user: string)

  datatype CheckoutKind = Plan | Topup

  datatype Status = Pending | Paid | Failed | Expired | Cancelled | Refunded | Chargeback

  /** The `provider_operation.state` kept in a checkout's metadata. */
  datatype Operation = CallStarted | OutcomeUnknown | OperationFailed | Completed

  datatype Checkout = Checkout(
    id: string,
    actor: Actor,
    key: string,              // the caller's idempotency key
    kind: CheckoutKind,
    item: string,
    included: int,            // credit included in the purchase
    days: int,                // configured entitlement days
    status: Status,
    linkId: string,           // provider_checkout_id
    url: string,              // provider_url
    paymentId: string,        // provider_payment_id
    operation: Operation,
    confirmedAt: Option<int>,
    reversedAt: Option<int>
  )

  datatype WalletStatus = WalletActive | Quarantined

  datatype Wallet = Wallet(status: WalletStatus, balance: int, credited: int, debited: int, quarantined: int)

  const EMPTY_WALLET := Wallet(WalletActive, 0, 0, 0, 0)

  datatype Entitlement = Entitlement(
    item: string,
    active: bool,
    reason: Status,           // the checkout status that was copied into the row
    checkoutId: string,
    startsAt: int,
    expiresAt: int,
    lastPaymentAt: int
  )

  datatype Direction = Credit | Debit

  datatype Tag = CreditTag | RefundTag | ChargebackTag | SpendTag

  /** The idempotency key `asaas:<ref>:<tag>` of a ledger row. */
  datatype LedgerKey = LedgerKey(ref: string, tag: Tag)

  datatype LedgerRow = LedgerRow(
    actor: Actor,
    direction: Direction,
    key: LedgerKey,
    amount: int,
    balanceAfter: int,
    checkoutId: string,       // "" for a row no checkout caused
    unrecovered: int          // the shortfall a reversal could not take back
  )

  datatype Charge = WalletTopup | Recurring | RefundCharge | ChargebackCharge

  /** `Paid` stands for the transaction status "confirmed". */
  datatype TransactionKey = TransactionKey(ref: string, status: Status, charge: Charge)

  datatype Transaction = Transaction(actor: Actor, checkoutId: string, at: int)

  datatype EventRow = EventReceived(kind: string) | EventProcessed(kind: string, checkoutId: string)
                    | EventIgnored(kind: string, checkoutId: string)

  /** The wallets, unique per tenant and user, and the append-only ledger they are kept with. */
  datatype Money = Money(wallets: map<Actor, Wallet>, ledger: seq<LedgerRow>)

  datatype Store = Store(
    checkouts: seq<Checkout>,                         // in insertion order
    money: Money,
    entitlements: map<Actor, Entitlement>,            // unique per tenant and user
    transactions: map<TransactionKey, Transaction>,   // unique per reference, status and charge
    events: map<string, EventRow>                     // unique per event key
  )

  const EMPTY_STORE := Store([], Money(map[], []), map[], map[], map[])

  /** A webhook body after authentication and JSON decoding. */
  datatype Event = Event(id: string, kind: string, payment: string, link: string, body: string)

  datatype Reply = Deduplicated | NotFound | Guarded | Unsupported | Applied | ReferenceMissing

  // ---------------------------------------------------------------- event keys

  /** The text whose digest is the event key; the digest is taken to be injective. */
  function EventKey(ev: Event): string {
    if ev.id != "" then "asaas-event|" + ev.id
    else if ev.payment != "" || ev.link != "" then ev.kind + "|" + ev.payment + "|" + ev.link
    else ev.body
  }

  // ---------------------------------------------------------------- row lookups

  function FindByLink(cs: seq<Checkout>, link: string): (r: Option<nat>)
    ensures r.Some? ==> r.value < |cs| && cs[r.value].linkId == link
    ensures r.None? ==> forall k :: 0 <= k < |cs| ==> cs[k].linkId != link
  {
    if cs == [] then None
    else if cs[0].linkId == link then Some(0)
    else match FindByLink(cs[1..], link)
         case None => assert cs == [cs[0]] + cs[1..]; None
         case Some(i) => Some(i + 1)
  }

  function FindByPayment(cs: seq<Checkout>, payment: string): (r: Option<nat>)
    ensures r.Some? ==> r.value < |cs| && cs[r.value].paymentId == payment
    ensures r.None? ==> forall k :: 0 <= k < |cs| ==> cs[k].paymentId != payment
  {
    if cs == [] then None
    else if cs[0].paymentId == payment then Some(0)
    else match FindByPayment(cs[1..], payment)
         case None => assert cs == [cs[0]] + cs[1..]; None
         case Some(i) => Some(i + 1)
  }

  /** The checkout an event names: by payment link first, by payment otherwise. */
  function CheckoutForProvider(cs: seq<Checkout>, ev: Event): (r: Option<nat>)
    ensures r.Some? ==> r.value < |cs|
    ensures r.Some? ==>
      || (ev.link != "" && cs[r.value].linkId == ev.link)
      || (ev.payment != "" && cs[r.value].paymentId == ev.payment)
  {
    var byLink := if ev.link != "" then FindByLink(cs, ev.link) else None;
    if byLink.None? && ev.payment != "" then FindByPayment(cs, ev.payment) else byLink
  }

  predicate LedgerHas(ledger: seq<LedgerRow>, tenant: string, key: LedgerKey) {
    exists k :: 0 <= k < |ledger| && ledger[k].actor.tenant == tenant && ledger[k].key == key
  }

  /** The oldest credit row written for a checkout. */
  function OriginalCredit(ledger: seq<LedgerRow>, actor: Actor, id: string): Option<LedgerRow> {
    if ledger == [] then None
    else
      var last := ledger[|ledger| - 1];
      match OriginalCredit(ledger[..|ledger| - 1], actor, id)
      case Some(row) => Some(row)
      case None =>
        if last.actor == actor && last.checkoutId == id && last.direction == Credit then Some(last) else None
  }

  function WalletOf(wallets: map<Actor, Wallet>, a: Actor): Wallet {
    if a in wallets then wallets[a] else EMPTY_WALLET
  }

  // ---------------------------------------------------------------- the transition table

  datatype Decision = Ignore | IgnoreUnsupported | Confirm | Expire | Cancel | Reverse

  predicate Terminal(s: Status) {
    s == Refunded || s == Chargeback
  }

  /** The families of provider events the program tells apart. */
  datatype EventFamily = Confirmation | Overdue | Deleted | Reversal(status: Status) | Other

  function Classify(kind: string): EventFamily {
    if kind == "PAYMENT_CONFIRMED" || kind == "PAYMENT_RECEIVED" then Confirmation
    else if kind == "PAYMENT_OVERDUE" then Overdue
    else if kind == "PAYMENT_DELETED" then Deleted
    else if kind == "PAYMENT_REFUNDED" then Reversal(Refunded)
    else if kind == "PAYMENT_CHARGEBACK_REQUESTED" || kind == "PAYMENT_CHARGEBACK_DISPUTE" then Reversal(Chargeback)
    else Other
  }

  function Transition(current: Status, family: EventFamily): (Decision, Status) {
    if Terminal(current) then (Ignore, current)
    else
      match family
      case Confirmation => if current == Paid || current == Cancelled then (Ignore, current) else (Confirm, Paid)
      case Overdue =>
        if current == Paid || current == Expired || current == Cancelled then (Ignore, current) else (Expire, Expired)
      case Deleted => if current == Paid || current == Cancelled then (Ignore, current) else (Cancel, Cancelled)
      case Reversal(status) => (Reverse, status)
      case Other => (IgnoreUnsupported, current)
  }

  // ---------------------------------------------------------------- entitlement

  function EntitlementDays(c: Checkout): int {
    var d := if c.days == 0 then 31 else c.days;
    var capped := if d < 366 then d else 366;
    if capped > 1 then capped else 1
  }

  const SECONDS_PER_DAY := 86400

  function ActivateEntitlement(ents: map<Actor, Entitlement>, c: Checkout, now: int): map<Actor, Entitlement> {
    if c.kind != Plan then ents
    else
      var starts := if c.actor in ents then ents[c.actor].startsAt else now;
      ents[c.actor := Entitlement(c.item, true, Paid, c.id, starts, now + EntitlementDays(c) * SECONDS_PER_DAY, now)]
  }

  /** Revokes whatever the actor's entitlement is, whichever checkout granted it. */
  function RevokeEntitlement(ents: map<Actor, Entitlement>, c: Checkout, status: Status): map<Actor, Entitlement> {
    if c.kind != Plan || c.actor !in ents then ents
    else ents[c.actor := ents[c.actor].(active := false, reason := status)]
  }

  // ---------------------------------------------------------------- money

  function RecordTransaction(txs: map<TransactionKey, Transaction>, c: Checkout, key: TransactionKey, now: int):
    map<TransactionKey, Transaction>
  {
    if key in txs then txs else txs[key := Transaction(c.actor, c.id, now)]
  }

  function CreditWallet(m: Money, c: Checkout, ref: string, amount: int): Money {
    var wallet := WalletOf(m.wallets, c.actor);
    var key := LedgerKey(ref, CreditTag);
    if amount <= 0 || LedgerHas(m.ledger, c.actor.tenant, key) then
      m.(wallets := m.wallets[c.actor := wallet])
    else
      var balance := wallet.balance + amount;
      Money(m.wallets[c.actor := wallet.(balance := balance, credited := wallet.credited + amount)],
            m.ledger + [LedgerRow(c.actor, Credit, key, amount, balance, c.id, 0)])
  }

  function ReversalTag(status: Status): Tag {
    if status == Refunded then RefundTag else ChargebackTag
  }

  function ReverseCheckoutCredit(m: Money, c: Checkout, ref: string, status: Status): Money {
    var key := LedgerKey(ref, ReversalTag(status));
    var original := OriginalCredit(m.ledger, c.actor, c.id);
    if LedgerHas(m.ledger, c.actor.tenant, key) || original.None? then m
    else
      var wallet := WalletOf(m.wallets, c.actor);
      var target := original.value.amount;
      var actual := if wallet.balance < target then wallet.balance else target;
      var shortfall := target - actual;
      var balance := wallet.balance - actual;
      var wallet' := wallet.(
        balance := balance,
        debited := wallet.debited + actual,
        status := if shortfall > 0 then Quarantined else wallet.status,
        quarantined := if shortfall > 0 then wallet.quarantined + shortfall else wallet.quarantined);
      Money(m.wallets[c.actor := wallet'],
            m.ledger + [LedgerRow(c.actor, Debit, key, actual, balance, c.id, shortfall)])
  }

  // ---------------------------------------------------------------- one webhook

  function PaymentRef(c: Checkout, ev: Event): string {
    if ev.payment != "" then ev.payment else if c.paymentId != "" then c.paymentId else c.linkId
  }

  function WithPayment(c: Checkout, ev: Event): Checkout {
    c.(paymentId := if ev.payment != "" then ev.payment else c.paymentId)
  }

  function ConfirmedKey(c: Checkout, ref: string): TransactionKey {
    TransactionKey(ref, Paid, if c.kind == Topup then WalletTopup else Recurring)
  }

  function ReversedKey(ref: string, status: Status): TransactionKey {
    TransactionKey(ref, status, if status == Refunded then RefundCharge else ChargebackCharge)
  }

  function ConfirmedRow(c: Checkout, now: int): Checkout {
    c.(status := Paid, confirmedAt := Some(now))
  }

  function ReversedRow(c: Checkout, status: Status, now: int): Checkout {
    c.(status := status, reversedAt := Some(now))
  }

  function ApplyConfirm(st: Store, i: nat, c: Checkout, ref: string, now: int): Store
    requires i < |st.checkouts|
  {
    var c' := ConfirmedRow(c, now);
    st.(checkouts := st.checkouts[i := c'],
        entitlements := ActivateEntitlement(st.entitlements, c', now),
        transactions := RecordTransaction(st.transactions, c', ConfirmedKey(c, ref), now),
        money := CreditWallet(st.money, c', ref, c.included))
  }

  function ApplyLapse(st: Store, i: nat, c: Checkout, status: Status): Store
    requires i < |st.checkouts|
  {
    st.(checkouts := st.checkouts[i := c.(status := status)],
        entitlements := RevokeEntitlement(st.entitlements, c, status))
  }

  function ApplyReverse(st: Store, i: nat, c: Checkout, ref: string, status: Status, now: int): Store
    requires i < |st.checkouts|
  {
    var c' := ReversedRow(c, status, now);
    st.(checkouts := st.checkouts[i := c'],
        entitlements := RevokeEntitlement(st.entitlements, c', status),
        transactions := RecordTransaction(st.transactions, c', ReversedKey(ref, status), now),
        money := ReverseCheckoutCredit(st.money, c', ref, status))
  }

  /** The effect on checkout `i`, already carrying the event's payment, of a decision. */
  function Decide(st: Store, i: nat, c: Checkout, ref: string, family: EventFamily, now: int): Store
    requires i < |st.checkouts|
  {
    var (decision, next) := Transition(c.status, family);
    match decision
    case Ignore => st.(checkouts := st.checkouts[i := c])
    case IgnoreUnsupported => st.(checkouts := st.checkouts[i := c])
    case Confirm => ApplyConfirm(st, i, c, ref, now)
    case Expire => ApplyLapse(st, i, c, next)
    case Cancel => ApplyLapse(st, i, c, next)
    case Reverse => ApplyReverse(st, i, c, ref, next, now)
  }

  function Claim(st: Store, ev: Event, row: EventRow): Store {
    st.(events := st.events[EventKey(ev) := row])
  }

  function DecisionReply(d: Decision): Reply {
    match d
    case Ignore => Guarded
    case IgnoreUnsupported => Unsupported
    case _ => Applied
  }

  function Outcome(d: Decision, kind: string, id: string): EventRow {
    if d == Ignore || d == IgnoreUnsupported then EventIgnored(kind, id) else EventProcessed(kind, id)
  }

  /** A newly claimed event whose checkout is row `i`. */
  function ProcessFound(st: Store, i: nat, ev: Event, now: int): (Store, Reply)
    requires i < |st.checkouts|
  {
    var c := WithPayment(st.checkouts[i], ev);
    var ref := PaymentRef(c, ev);
    if ref == "" then (st, ReferenceMissing)
    else
      var family := Classify(ev.kind);
      var d := Transition(c.status, family).0;
      (Decide(Claim(st, ev, Outcome(d, ev.kind, c.id)), i, c, ref, family, now), DecisionReply(d))
  }

  /** One webhook as one transaction: the store it commits and the reply it sends. */
  function ProcessWebhook(st: Store, ev: Event, now: int): (Store, Reply) {
    if EventKey(ev) in st.events then (st, Deduplicated)
    else
      match CheckoutForProvider(st.checkouts, ev)
      case None => (Claim(st, ev, EventIgnored(ev.kind, "")), NotFound)
      case Some(i) => ProcessFound(st, i, ev, now)
  }
}
