/** What identifies an event, the reference its money is posted under, and the tenants it touches. */
module BillingKeys {
  import opened Common
  import opened BillingModel
  import opened BillingLedger
  import opened BillingSteps
  import opened BillingRuns
  import opened BillingReversals

  // ---------------------------------------------------------------- the key of an event

  predicate NoBar(s: string) {
    '|' !in s
  }

  lemma FirstBar(a: string, x: string)
    requires NoBar(a)
    ensures (a + "|" + x)[|a|] == '|' && forall k :: 0 <= k < |a| ==> (a + "|" + x)[k] != '|'
    ensures (a + "|" + x)[..|a|] == a && (a + "|" + x)[|a| + 1..] == x
  {
    forall k | 0 <= k < |a| ensures (a + "|" + x)[k] != '|' {
      assert (a + "|" + x)[k] == a[k] && a[k] in a;
    }
  }

  lemma CutAtBar(a: string, b: string, x: string, y: string)
    requires NoBar(a) && NoBar(b)
    ensures a + "|" + x == b + "|" + y <==> a == b && x == y
  {
    FirstBar(a, x);
    FirstBar(b, y);
  }

  predicate Anonymous(ev: Event) {
    ev.id == "" && ev.payment == "" && ev.link == ""
  }

  /** Event ids identify events; without one, kind, payment and link do; without any of these, the
      body. An event with an id is never taken for one without. */
  lemma SameKeyExactlyWhen(a: Event, b: Event)
    requires NoBar(a.kind) && NoBar(a.payment) && NoBar(b.kind) && NoBar(b.payment)
    requires a.kind != "asaas-event" && b.kind != "asaas-event"
    ensures a.id != "" && b.id != "" ==> (EventKey(a) == EventKey(b) <==> a.id == b.id)
    ensures a.id != "" && b.id == "" && !Anonymous(b) ==> EventKey(a) != EventKey(b)
    ensures a.id == "" && b.id == "" && !Anonymous(a) && !Anonymous(b) ==>
      (EventKey(a) == EventKey(b) <==> a.kind == b.kind && a.payment == b.payment && a.link == b.link)
    ensures Anonymous(a) && Anonymous(b) ==> (EventKey(a) == EventKey(b) <==> a.body == b.body)
  {
    Spelled(a);
    Spelled(b);
    CutAtBar("asaas-event", "asaas-event", a.id, b.id);
    CutAtBar("asaas-event", b.kind, a.id, b.payment + "|" + b.link);
    CutAtBar(a.kind, b.kind, a.payment + "|" + a.link, b.payment + "|" + b.link);
    CutAtBar(a.payment, b.payment, a.link, b.link);
  }

  lemma Spelled(ev: Event)
    ensures ev.id != "" ==> EventKey(ev) == "asaas-event" + "|" + ev.id
    ensures ev.id == "" && !Anonymous(ev) ==> EventKey(ev) == ev.kind + "|" + (ev.payment + "|" + ev.link)
  {
    assert "asaas-event|" == "asaas-event" + "|";
    assert ev.kind + "|" + ev.payment + "|" + ev.link == ev.kind + "|" + (ev.payment + "|" + ev.link);
  }

  /** A bar inside a payment or link makes two different events share a key. */
  lemma BarsConfuse()
    ensures var a, b := Event("", "K", "P", "L|", ""), Event("", "K", "P|L", "", "");
      a != b && EventKey(a) == EventKey(b)
  {
    assert "K" + "|" + "P" + "|" + "L|" == "K" + "|" + "P|L" + "|" + "";
  }

  // ---------------------------------------------------------------- the reference money is posted under

  /** The payment the event names; without one, the payment the checkout holds; without that, its
      link. */
  predicate PaidUnder(c: Checkout, ev: Event, ref: string) {
    && (ev.payment != "" ==> ref == ev.payment)
    && (ev.payment == "" && c.paymentId != "" ==> ref == c.paymentId)
    && (ev.payment == "" && c.paymentId == "" ==> ref == c.linkId)
  }

  /** Everything posted is posted for this checkout, under that reference. */
  ghost predicate PostedFor(st: Store, st': Store, c: Checkout, ev: Event) {
    && MoneyFor(st.money, st'.money, c, ev)
    && RecordedFor(st.transactions, st'.transactions, c, ev)
    && OnlyOf(st.entitlements, st'.entitlements, c.actor)
  }

  ghost predicate MoneyFor(m: Money, m': Money, c: Checkout, ev: Event) {
    && OnlyOf(m.wallets, m'.wallets, c.actor)
    && m.ledger <= m'.ledger
    && forall k :: |m.ledger| <= k < |m'.ledger| ==> RowFor(m'.ledger[k], c, ev)
  }

  predicate RowFor(row: LedgerRow, c: Checkout, ev: Event) {
    row.actor == c.actor && row.checkoutId == c.id && PaidUnder(c, ev, row.key.ref)
  }

  ghost predicate RecordedFor(txs: map<TransactionKey, Transaction>, txs': map<TransactionKey, Transaction>,
      c: Checkout, ev: Event) {
    && (forall key :: key in txs ==> key in txs' && txs'[key] == txs[key])
    && (forall key :: key in txs' && key !in txs ==> PaidUnder(c, ev, key.ref) && txs'[key].checkoutId == c.id)
  }

  /** No entry changes but this actor's. */
  ghost predicate OnlyOf<T(!new)>(rows: map<Actor, T>, rows': map<Actor, T>, a: Actor) {
    forall b :: b != a ==> (b in rows' <==> b in rows) && (b in rows ==> rows'[b] == rows[b])
  }

  lemma DecidePosts(st: Store, i: nat, c: Checkout, ref: string, family: EventFamily, now: int, ev: Event)
    requires i < |st.checkouts| && PaidUnder(c, ev, ref)
    ensures PostedFor(st, Decide(st, i, c, ref, family, now), c, ev)
  {
    var (decision, next) := Transition(c.status, family);
    match decision
    case Confirm => ConfirmPosts(st, i, c, ref, now, ev);
    case Reverse => ReversePosts(st, i, c, ref, next, now, ev);
    case Expire => LapsePosts(st, i, c, next, ev);
    case Cancel => LapsePosts(st, i, c, next, ev);
    case _ =>
  }

  lemma ConfirmPosts(st: Store, i: nat, c: Checkout, ref: string, now: int, ev: Event)
    requires i < |st.checkouts| && PaidUnder(c, ev, ref)
    ensures PostedFor(st, ApplyConfirm(st, i, c, ref, now), c, ev)
  {
    CreditIsFor(st.money, ConfirmedRow(c, now), c, ref, ev);
  }

  lemma ReversePosts(st: Store, i: nat, c: Checkout, ref: string, status: Status, now: int, ev: Event)
    requires i < |st.checkouts| && PaidUnder(c, ev, ref)
    ensures PostedFor(st, ApplyReverse(st, i, c, ref, status, now), c, ev)
  {
    ReversalIsFor(st.money, ReversedRow(c, status, now), c, ref, status, ev);
  }

  lemma LapsePosts(st: Store, i: nat, c: Checkout, status: Status, ev: Event)
    requires i < |st.checkouts|
    ensures PostedFor(st, ApplyLapse(st, i, c, status), c, ev)
  {}

  lemma CreditIsFor(m: Money, c': Checkout, c: Checkout, ref: string, ev: Event)
    requires c'.actor == c.actor && c'.id == c.id && PaidUnder(c, ev, ref)
    ensures MoneyFor(m, CreditWallet(m, c', ref, c.included), c, ev)
  {}

  lemma ReversalIsFor(m: Money, c': Checkout, c: Checkout, ref: string, status: Status, ev: Event)
    requires c'.actor == c.actor && c'.id == c.id && PaidUnder(c, ev, ref)
    ensures MoneyFor(m, ReverseCheckoutCredit(m, c', ref, status), c, ev)
  {}

  /** One webhook touches the wallet, the entitlement and the postings of the actor whose checkout it
      reaches, and of nobody else. */
  lemma TouchesOneActor(st: Store, ev: Event, now: int)
    ensures var st' := ProcessWebhook(st, ev, now).0;
      || st' == st.(events := st'.events)
      || exists i :: 0 <= i < |st.checkouts| && Reaches(st, i, ev) && PostedFor(st, st', st.checkouts[i], ev)
  {
    var found := CheckoutForProvider(st.checkouts, ev);
    if EventKey(ev) !in st.events && found.Some? {
      var i := found.value;
      var c := WithPayment(st.checkouts[i], ev);
      FoundIsDecided(st, i, ev, now);
      DecidePosts(Claimed(st, i, ev), i, c, PaymentRef(c, ev), Classify(ev.kind), now, ev);
      assert Reaches(st, i, ev) && PostedFor(st, ProcessWebhook(st, ev, now).0, st.checkouts[i], ev);
    }
  }

  // ---------------------------------------------------------------- tenants do not interfere

  function RowsIn(ledger: seq<LedgerRow>, tenant: string): seq<LedgerRow> {
    if ledger == [] then []
    else
      var front, last := RowsIn(ledger[..|ledger| - 1], tenant), ledger[|ledger| - 1];
      if last.actor.tenant == tenant then front + [last] else front
  }

  lemma {:induction false} HasInTenant(ledger: seq<LedgerRow>, tenant: string, key: LedgerKey)
    ensures LedgerHas(ledger, tenant, key) <==> LedgerHas(RowsIn(ledger, tenant), tenant, key)
  {
    if ledger == [] {
    } else {
      var front, last := ledger[..|ledger| - 1], ledger[|ledger| - 1];
      HasInTenant(front, tenant, key);
      HasMore(front, last, tenant, key);
      HasMore(RowsIn(front, tenant), last, tenant, key);
      assert front + [last] == ledger;
    }
  }

  lemma HasMore(ledger: seq<LedgerRow>, row: LedgerRow, tenant: string, key: LedgerKey)
    ensures LedgerHas(ledger + [row], tenant, key) <==>
      LedgerHas(ledger, tenant, key) || (row.actor.tenant == tenant && row.key == key)
  {
    var more := ledger + [row];
    assert more[|ledger|] == row;
    forall k | 0 <= k < |ledger| ensures more[k] == ledger[k] {}
  }

  lemma {:induction false} OriginalInTenant(ledger: seq<LedgerRow>, actor: Actor, id: string)
    ensures OriginalCredit(ledger, actor, id) == OriginalCredit(RowsIn(ledger, actor.tenant), actor, id)
  {
    if ledger == [] {
    } else {
      var front, last := ledger[..|ledger| - 1], ledger[|ledger| - 1];
      OriginalInTenant(front, actor, id);
      Append(RowsIn(front, actor.tenant), last);
    }
  }

  /** The rows a posting adds. */
  function Posted(m: Money, m': Money): seq<LedgerRow>
    requires |m.ledger| <= |m'.ledger|
  {
    m'.ledger[|m.ledger|..]
  }

  /** The same wallets, and the same rows added. */
  predicate SameEffect(m: Money, m': Money, n: Money, n': Money) {
    && m'.wallets == n'.wallets
    && m.ledger <= m'.ledger && n.ledger <= n'.ledger && Posted(m, m') == Posted(n, n')
  }

  /** What is credited depends on the rows of the checkout's own tenant only: the same key in another
      tenant stands in nobody's way. */
  lemma TenantsDoNotInterfere(m: Money, n: Money, c: Checkout, ref: string, amount: int)
    requires m.wallets == n.wallets && RowsIn(m.ledger, c.actor.tenant) == RowsIn(n.ledger, c.actor.tenant)
    ensures SameEffect(m, CreditWallet(m, c, ref, amount), n, CreditWallet(n, c, ref, amount))
  {
    HasInTenant(m.ledger, c.actor.tenant, LedgerKey(ref, CreditTag));
    HasInTenant(n.ledger, c.actor.tenant, LedgerKey(ref, CreditTag));
  }

  /** So does what is taken back. */
  lemma TenantsDoNotReverse(m: Money, n: Money, c: Checkout, ref: string, status: Status)
    requires m.wallets == n.wallets && RowsIn(m.ledger, c.actor.tenant) == RowsIn(n.ledger, c.actor.tenant)
    ensures SameEffect(m, ReverseCheckoutCredit(m, c, ref, status), n, ReverseCheckoutCredit(n, c, ref, status))
  {
    HasInTenant(m.ledger, c.actor.tenant, LedgerKey(ref, ReversalTag(status)));
    HasInTenant(n.ledger, c.actor.tenant, LedgerKey(ref, ReversalTag(status)));
    OriginalInTenant(m.ledger, c.actor, c.id);
    OriginalInTenant(n.ledger, c.actor, c.id);
  }
}
