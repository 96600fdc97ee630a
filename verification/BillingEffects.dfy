/** What an event does to entitlements and credits, and where the program falls short. */
module BillingEffects {
  import opened Common
  import opened BillingModel
  import opened BillingLedger
  import opened BillingSteps
  import opened BillingRuns

  // ---------------------------------------------------------------- entitlements of paid plans

  predicate Entitled(st: Store, a: Actor) {
    a in st.entitlements && st.entitlements[a].active
  }

  predicate PaidPlanAt(cs: seq<Checkout>, k: int, a: Actor) {
    0 <= k < |cs| && cs[k].actor == a && cs[k].kind == Plan && cs[k].status == Paid
  }

  ghost predicate HasPaidPlan(cs: seq<Checkout>, a: Actor) {
    exists k :: PaidPlanAt(cs, k, a)
  }

  lemma DecideLosesExactlyWhen(st: Store, i: nat, c: Checkout, ref: string, family: EventFamily, now: int)
    requires i < |st.checkouts| && c == st.checkouts[i].(paymentId := c.paymentId)
    requires family.Reversal? ==> Terminal(family.status)
    requires HasPaidPlan(st.checkouts, c.actor) ==> Entitled(st, c.actor)
    ensures var st' := Decide(st, i, c, ref, family, now);
      (HasPaidPlan(st'.checkouts, c.actor) && !Entitled(st', c.actor)) <==>
      (&& Transition(c.status, family).0 in {Expire, Cancel, Reverse}
       && c.kind == Plan
       && exists k :: k != i && PaidPlanAt(st.checkouts, k, c.actor))
  {
    var st' := Decide(st, i, c, ref, family, now);
    DecideEvolves(st, i, c, ref, family, now);
    if exists k :: k != i && PaidPlanAt(st.checkouts, k, c.actor) {
      var k :| k != i && PaidPlanAt(st.checkouts, k, c.actor);
      assert PaidPlanAt(st'.checkouts, k, c.actor);
    }
    if HasPaidPlan(st'.checkouts, c.actor) {
      var k :| PaidPlanAt(st'.checkouts, k, c.actor);
      assert k != i ==> PaidPlanAt(st.checkouts, k, c.actor);
      assert k == i && c.status == Paid ==> PaidPlanAt(st.checkouts, i, c.actor);
    }
  }

  /** An event about one actor's checkout leaves every other actor's plans and entitlement alone. */
  lemma OthersKeepPlans(st: Store, i: nat, c: Checkout, ref: string, family: EventFamily, now: int, a: Actor)
    requires i < |st.checkouts| && c == st.checkouts[i].(paymentId := c.paymentId) && c.actor != a
    requires family.Reversal? ==> Terminal(family.status)
    ensures var st' := Decide(st, i, c, ref, family, now);
      && (HasPaidPlan(st'.checkouts, a) <==> HasPaidPlan(st.checkouts, a))
      && (Entitled(st', a) <==> Entitled(st, a))
  {
    var st' := Decide(st, i, c, ref, family, now);
    DecideEvolves(st, i, c, ref, family, now);
    forall k ensures PaidPlanAt(st'.checkouts, k, a) <==> PaidPlanAt(st.checkouts, k, a) {
      assert 0 <= k < |st.checkouts| && k != i ==> st'.checkouts[k] == st.checkouts[k];
    }
  }

  /** The event lapses or reverses a plan checkout of the actor while another one is paid. */
  ghost predicate EndsOneOfTwoPlans(st: Store, ev: Event, a: Actor) {
    var found := CheckoutForProvider(st.checkouts, ev);
    && EventKey(ev) !in st.events && found.Some?
    && var c := st.checkouts[found.value];
       && c.actor == a && c.kind == Plan
       && Transition(c.status, Classify(ev.kind)).0 in {Expire, Cancel, Reverse}
       && exists k :: k != found.value && PaidPlanAt(st.checkouts, k, a)
  }

  /** "Whoever has a paid plan is entitled" is not kept by every webhook. For every store and event,
      and every actor for whom it holds before, it fails after exactly when the event lapses or
      reverses a plan checkout of the actor while another plan checkout of that actor is paid. */
  lemma EntitlementLostExactlyWhen(st: Store, ev: Event, now: int, a: Actor)
    requires HasPaidPlan(st.checkouts, a) ==> Entitled(st, a)
    ensures var st' := ProcessWebhook(st, ev, now).0;
      (HasPaidPlan(st'.checkouts, a) && !Entitled(st', a)) <==> EndsOneOfTwoPlans(st, ev, a)
  {
    var found := CheckoutForProvider(st.checkouts, ev);
    if EventKey(ev) !in st.events && found.Some? {
      FoundLosesExactlyWhen(st, found.value, ev, now, a);
    }
  }

  lemma FoundLosesExactlyWhen(st: Store, i: nat, ev: Event, now: int, a: Actor)
    requires HasPaidPlan(st.checkouts, a) ==> Entitled(st, a)
    requires CheckoutForProvider(st.checkouts, ev) == Some(i) && EventKey(ev) !in st.events
    ensures var st' := ProcessFound(st, i, ev, now).0;
      (HasPaidPlan(st'.checkouts, a) && !Entitled(st', a)) <==> EndsOneOfTwoPlans(st, ev, a)
  {
    var c := WithPayment(st.checkouts[i], ev);
    var ref, family := PaymentRef(c, ev), Classify(ev.kind);
    FoundIsDecided(st, i, ev, now);
    var claimed := Claimed(st, i, ev);
    if c.actor == a {
      DecideLosesExactlyWhen(claimed, i, c, ref, family, now);
    } else {
      OthersKeepPlans(claimed, i, c, ref, family, now, a);
    }
  }

  // A concrete loss. Two unpaid plans of one actor are both confirmed; then the first is refunded.

  const SUBSCRIBER := Actor("tenant", "user")

  function Unpaid(id: string, link: string): Checkout {
    Checkout(id, SUBSCRIBER, id, Plan, "plan", 5, 31, Pending, link, "url", "", Completed, None, None)
  }

  const TWO_PLANS := EMPTY_STORE.(checkouts := [Unpaid("a", "one"), Unpaid("b", "two")])
  const FIRST_PAID := Event("1", "PAYMENT_CONFIRMED", "", "one", "")
  const SECOND_PAID := Event("2", "PAYMENT_CONFIRMED", "", "two", "")
  const FIRST_REFUNDED := Event("3", "PAYMENT_REFUNDED", "", "one", "")

  lemma PlanKeysDiffer()
    ensures EventKey(FIRST_PAID) != EventKey(SECOND_PAID)
    ensures EventKey(FIRST_REFUNDED) !in {EventKey(FIRST_PAID), EventKey(SECOND_PAID)}
  {
    var n := |"asaas-event|"|;
    assert EventKey(FIRST_PAID)[n] == '1' && EventKey(SECOND_PAID)[n] == '2' && EventKey(FIRST_REFUNDED)[n] == '3';
  }

  /** What a first confirmation does to its row and to the subscriber's entitlement. */
  lemma PlanConfirmed(st: Store, i: nat, ev: Event, now: int)
    requires i < |st.checkouts| && st.checkouts[i].actor == SUBSCRIBER && st.checkouts[i].kind == Plan
    requires st.checkouts[i].status == Pending && ev.payment == "" && Classify(ev.kind) == Confirmation
    requires CheckoutForProvider(st.checkouts, ev) == Some(i) && EventKey(ev) !in st.events
    ensures var st' := ProcessWebhook(st, ev, now).0;
      && st'.checkouts == st.checkouts[i := ConfirmedRow(st.checkouts[i], now)]
      && Entitled(st', SUBSCRIBER) && st'.events.Keys == st.events.Keys + {EventKey(ev)}
  {
    assert WithPayment(st.checkouts[i], ev) == st.checkouts[i];
    FoundIsDecided(st, i, ev, now);
    ProcessEvolves(st, ev, now);
  }

  lemma BothPlansConfirmed()
    ensures var st := Run(TWO_PLANS, [Delivery(FIRST_PAID, 1), Delivery(SECOND_PAID, 2)]);
      && |st.checkouts| == 2 && st.checkouts[0].linkId == "one" && st.checkouts[1].linkId == "two"
      && PaidPlanAt(st.checkouts, 0, SUBSCRIBER) && PaidPlanAt(st.checkouts, 1, SUBSCRIBER)
      && Entitled(st, SUBSCRIBER) && EventKey(FIRST_REFUNDED) !in st.events
  {
    PlanKeysDiffer();
    assert CheckoutForProvider(TWO_PLANS.checkouts, FIRST_PAID) == Some(0);
    PlanConfirmed(TWO_PLANS, 0, FIRST_PAID, 1);
    var one := ProcessWebhook(TWO_PLANS, FIRST_PAID, 1).0;
    SecondIsFound(one);
    PlanConfirmed(one, 1, SECOND_PAID, 2);
    ThreeDeliveries(TWO_PLANS, Delivery(FIRST_PAID, 1), Delivery(SECOND_PAID, 2), Delivery(FIRST_REFUNDED, 3));
  }

  /** From two unpaid plans, three ordinary events leave the actor with a paid plan and without
      entitlement. */
  lemma RefundOfOnePlanEndsTheOther()
    ensures var st := Run(TWO_PLANS, [Delivery(FIRST_PAID, 1), Delivery(SECOND_PAID, 2)]);
      HasPaidPlan(st.checkouts, SUBSCRIBER) && Entitled(st, SUBSCRIBER)
    ensures var st := Run(TWO_PLANS, [Delivery(FIRST_PAID, 1), Delivery(SECOND_PAID, 2), Delivery(FIRST_REFUNDED, 3)]);
      HasPaidPlan(st.checkouts, SUBSCRIBER) && !Entitled(st, SUBSCRIBER)
    ensures Books(TWO_PLANS, (ref: string) => ref)
  {
    BothPlansConfirmed();
    ThreeDeliveries(TWO_PLANS, Delivery(FIRST_PAID, 1), Delivery(SECOND_PAID, 2), Delivery(FIRST_REFUNDED, 3));
    RefundEnds(Run(TWO_PLANS, [Delivery(FIRST_PAID, 1), Delivery(SECOND_PAID, 2)]));
    TwoPlansAreSound();
  }

  lemma SecondIsFound(st: Store)
    requires |st.checkouts| == 2 && st.checkouts[0].linkId == "one" && st.checkouts[1].linkId == "two"
    ensures CheckoutForProvider(st.checkouts, SECOND_PAID) == Some(1)
    ensures CheckoutForProvider(st.checkouts, FIRST_REFUNDED) == Some(0)
  {}

  lemma RefundEnds(st: Store)
    requires |st.checkouts| == 2 && st.checkouts[0].linkId == "one" && st.checkouts[1].linkId == "two"
    requires PaidPlanAt(st.checkouts, 0, SUBSCRIBER) && PaidPlanAt(st.checkouts, 1, SUBSCRIBER)
    requires Entitled(st, SUBSCRIBER) && EventKey(FIRST_REFUNDED) !in st.events
    ensures var st' := ProcessWebhook(st, FIRST_REFUNDED, 3).0;
      HasPaidPlan(st'.checkouts, SUBSCRIBER) && !Entitled(st', SUBSCRIBER)
  {
    SecondIsFound(st);
    assert Classify(FIRST_REFUNDED.kind) == Reversal(Refunded);
    EntitlementLostExactlyWhen(st, FIRST_REFUNDED, 3, SUBSCRIBER);
  }

  lemma TwoPlansAreSound()
    ensures Books(TWO_PLANS, (ref: string) => ref)
  {
    var anchor := (ref: string) => ref;
    var cs := [Unpaid("a", "one"), Unpaid("b", "two")];
    assert CheckoutShape(cs[0]) && CheckoutShape(cs[1]) && Anchored(cs[0], anchor) && Anchored(cs[1], anchor);
    assert "one" != "two";
    assert "a" != "b";
    UnpaidIsSound(cs, anchor);
  }

  // ---------------------------------------------------------------- early events

  /** An event that names no checkout yet is spent: it changes nothing but the list of keys, and
      after any further stream its redelivery still changes nothing. A confirmation lost this way
      never credits. */
  lemma EarlyEventIsSpent(st: Store, ev: Event, now: int, ds: seq<Delivery>, now': int)
    requires EventKey(ev) !in st.events && CheckoutForProvider(st.checkouts, ev).None?
    ensures ProcessWebhook(st, ev, now).1 == NotFound
    ensures ProcessWebhook(st, ev, now).0.(events := st.events) == st
    ensures var later := Run(ProcessWebhook(st, ev, now).0, ds);
      ProcessWebhook(later, ev, now') == (later, Deduplicated)
  {
    StreamClaimsKeys(ProcessWebhook(st, ev, now).0, ds);
  }

  // ---------------------------------------------------------------- credits

  lemma DecideConfirms(st: Store, i: nat, c: Checkout, ref: string, family: EventFamily, now: int)
    requires i < |st.checkouts|
    ensures var c' := Decide(st, i, c, ref, family, now).checkouts[i];
      && c'.included == c.included && c'.id == c.id
      && (c'.confirmedAt.Some? <==> c.confirmedAt.Some? || Transition(c.status, family).0 == Confirm)
  {}

  /** The confirmation an event brings is one its checkout still waits for. */
  predicate Confirms(st: Store, i: nat, ev: Event) {
    && EventKey(ev) !in st.events && CheckoutForProvider(st.checkouts, ev) == Some(i)
    && Classify(ev.kind) == Confirmation && i < |st.checkouts| && st.checkouts[i].status in {Pending, Expired, Failed}
  }

  /** "Every confirmation credits" is false, as an early event shows. A confirmation writes the
      credit of a checkout with included credit exactly when its key is new, it finds the checkout
      bound, and that checkout is neither paid, cancelled nor reversed. */
  lemma CreditedExactlyWhen(st: Store, i: nat, ev: Event, now: int, anchor: string -> string)
    requires Books(st, anchor) && Consistent(ev, anchor) && i < |st.checkouts| && st.checkouts[i].included > 0
    ensures var st' := ProcessWebhook(st, ev, now).0;
      RowsOf(st'.money.ledger, st.checkouts[i].id, Credit) != RowsOf(st.money.ledger, st.checkouts[i].id, Credit)
      <==> Confirms(st, i, ev)
  {
    var st' := ProcessWebhook(st, ev, now).0;
    ProcessKeepsBooks(st, ev, now, anchor);
    ProcessEvolves(st, ev, now);
    CreditsFollowConfirmation(st, i, ev, now, anchor);
    CreditRowsGrow(st.money.ledger, st'.money.ledger, st.checkouts[i], st'.checkouts[i]);
  }

  lemma CreditRowsGrow(ledger: seq<LedgerRow>, ledger': seq<LedgerRow>, c: Checkout, c': Checkout)
    requires CheckoutBooks(c, ledger) && CheckoutBooks(c', ledger') && c'.id == c.id
    requires ledger <= ledger' && (HasCredit(c) ==> HasCredit(c'))
    ensures RowsOf(ledger', c.id, Credit) != RowsOf(ledger, c.id, Credit) <==> HasCredit(c') && !HasCredit(c)
  {
    assert ledger' == ledger + ledger'[|ledger|..];
    RowsOfPrefix(ledger, ledger'[|ledger|..], c.id);
  }

  lemma {:induction false} RowsOfPrefix(ledger: seq<LedgerRow>, more: seq<LedgerRow>, id: string)
    ensures RowsOf(ledger, id, Credit) <= RowsOf(ledger + more, id, Credit)
  {
    if more == [] {
      assert ledger + more == ledger;
    } else {
      RowsOfPrefix(ledger, more[..|more| - 1], id);
      assert (ledger + more)[..|ledger + more| - 1] == ledger + more[..|more| - 1];
    }
  }

  /** A first delivery that finds row `i` and decides this about it. */
  predicate Decides(st: Store, i: nat, ev: Event, d: Decision)
    requires i < |st.checkouts|
  {
    && EventKey(ev) !in st.events && CheckoutForProvider(st.checkouts, ev) == Some(i)
    && Transition(st.checkouts[i].status, Classify(ev.kind)).0 == d
  }

  /** A row gets its confirmation time from an event that confirms it, and from no other. */
  lemma ProcessConfirms(st: Store, i: nat, ev: Event, now: int, anchor: string -> string)
    requires CheckoutsOk(st.checkouts, anchor) && Consistent(ev, anchor) && i < |st.checkouts|
    ensures var st' := ProcessWebhook(st, ev, now).0;
      && |st'.checkouts| == |st.checkouts|
      && var c, c' := st.checkouts[i], st'.checkouts[i];
         && c'.included == c.included && c'.id == c.id
         && (c'.confirmedAt.Some? <==> c.confirmedAt.Some? || Decides(st, i, ev, Confirm))
  {
    var found := CheckoutForProvider(st.checkouts, ev);
    if EventKey(ev) !in st.events && found.Some? {
      ResolvedIsAnchored(st.checkouts, found.value, ev, anchor);
      FoundEvolves(st, found.value, ev, now);
      FoundConfirms(st, found.value, ev, now);
    }
  }

  lemma CreditsFollowConfirmation(st: Store, i: nat, ev: Event, now: int, anchor: string -> string)
    requires CheckoutsOk(st.checkouts, anchor) && Consistent(ev, anchor) && i < |st.checkouts|
    requires st.checkouts[i].included > 0
    ensures var st' := ProcessWebhook(st, ev, now).0;
      && |st'.checkouts| == |st.checkouts| && st'.checkouts[i].id == st.checkouts[i].id
      && (HasCredit(st.checkouts[i]) ==> HasCredit(st'.checkouts[i]))
      && (HasCredit(st'.checkouts[i]) && !HasCredit(st.checkouts[i]) <==> Confirms(st, i, ev))
  {
    ProcessConfirms(st, i, ev, now, anchor);
    ConfirmsByStatus(st.checkouts[i], Classify(ev.kind));
  }

  lemma ConfirmsByStatus(c: Checkout, family: EventFamily)
    requires CheckoutShape(c)
    ensures Transition(c.status, family).0 == Confirm <==>
      family == Confirmation && c.status in {Pending, Expired, Failed}
    ensures Transition(c.status, family).0 == Confirm ==> c.confirmedAt.None?
  {}

  lemma FoundConfirms(st: Store, i: nat, ev: Event, now: int)
    requires i < |st.checkouts| && PaymentRef(WithPayment(st.checkouts[i], ev), ev) != ""
    ensures var c, c' := st.checkouts[i], ProcessFound(st, i, ev, now).0.checkouts[i];
      && c'.included == c.included && c'.id == c.id
      && (c'.confirmedAt.Some? <==> c.confirmedAt.Some? || Transition(c.status, Classify(ev.kind)).0 == Confirm)
  {
    var c := WithPayment(st.checkouts[i], ev);
    var d := Transition(c.status, Classify(ev.kind)).0;
    DecideConfirms(Claim(st, ev, Outcome(d, ev.kind, c.id)), i, c, PaymentRef(c, ev), Classify(ev.kind), now);
  }
}
