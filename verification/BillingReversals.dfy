/** When a refund or chargeback reverses its checkout, and in which orders. */
module BillingReversals {
  import opened Common
  import opened BillingModel
  import opened BillingLedger
  import opened BillingSteps
  import opened BillingRuns

  // ---------------------------------------------------------------- which row an event names

  /** No payment is held by two rows. */
  ghost predicate PaymentsDistinct(cs: seq<Checkout>) {
    forall i, j :: 0 <= i < j < |cs| && cs[i].paymentId != "" ==> cs[i].paymentId != cs[j].paymentId
  }

  /** The event carries no link, or one that no row holds. */
  predicate NoRowLinked(cs: seq<Checkout>, link: string) {
    link == "" || forall k :: 0 <= k < |cs| ==> cs[k].linkId != link
  }

  /** The event carries the row's link; or no row's link, and the payment the row already holds. */
  predicate Names(cs: seq<Checkout>, i: nat, ev: Event)
    requires i < |cs|
  {
    || (ev.link != "" && ev.link == cs[i].linkId)
    || (NoRowLinked(cs, ev.link) && ev.payment != "" && ev.payment == cs[i].paymentId)
  }

  lemma PaymentsAreDistinct(cs: seq<Checkout>, anchor: string -> string)
    requires CheckoutsOk(cs, anchor)
    ensures LinksDistinct(cs) && PaymentsDistinct(cs)
  {
    forall i, j | 0 <= i < j < |cs| && cs[i].paymentId != "" ensures cs[i].paymentId != cs[j].paymentId {
      assert CheckoutShape(cs[i]) && Anchored(cs[i], anchor) && Anchored(cs[j], anchor);
    }
  }

  lemma FoundExactlyWhenNamed(cs: seq<Checkout>, i: nat, ev: Event)
    requires LinksDistinct(cs) && PaymentsDistinct(cs) && i < |cs|
    ensures CheckoutForProvider(cs, ev) == Some(i) <==> Names(cs, i, ev)
  {}

  // ---------------------------------------------------------------- one event

  lemma DecideReverses(st: Store, i: nat, c: Checkout, ref: string, family: EventFamily, now: int)
    requires i < |st.checkouts| && (family.Reversal? ==> Terminal(family.status))
    ensures var c' := Decide(st, i, c, ref, family, now).checkouts[i];
      && (Terminal(c'.status) <==> Terminal(c.status) || family.Reversal?)
      && c'.paymentId == c.paymentId
  {}

  lemma FoundReverses(st: Store, i: nat, ev: Event, now: int)
    requires i < |st.checkouts| && PaymentRef(WithPayment(st.checkouts[i], ev), ev) != ""
    ensures var c, c' := WithPayment(st.checkouts[i], ev), ProcessFound(st, i, ev, now).0.checkouts[i];
      && (Terminal(c'.status) <==> Terminal(c.status) || Classify(ev.kind).Reversal?)
      && c'.paymentId == c.paymentId
  {
    FoundIsDecided(st, i, ev, now);
    DecideReverses(Claimed(st, i, ev), i, WithPayment(st.checkouts[i], ev),
                   PaymentRef(WithPayment(st.checkouts[i], ev), ev), Classify(ev.kind), now);
  }

  /** The event is a first delivery and is resolved to row `i`. */
  predicate Reaches(st: Store, i: nat, ev: Event) {
    EventKey(ev) !in st.events && CheckoutForProvider(st.checkouts, ev) == Some(i)
  }

  /** What one event does to the two columns this is about, for every store and event. */
  lemma ProcessReverses(st: Store, i: nat, ev: Event, now: int)
    requires i < |st.checkouts|
    ensures var cs' := ProcessWebhook(st, ev, now).0.checkouts;
      && |cs'| == |st.checkouts|
      && (Terminal(cs'[i].status) <==>
            Terminal(st.checkouts[i].status) || (Reaches(st, i, ev) && Classify(ev.kind).Reversal?))
      && cs'[i].paymentId ==
           (if Reaches(st, i, ev) && ev.payment != "" then ev.payment else st.checkouts[i].paymentId)
  {
    var found := CheckoutForProvider(st.checkouts, ev);
    if EventKey(ev) !in st.events && found.Some? {
      FoundEvolves(st, found.value, ev, now);
      FoundReverses(st, found.value, ev, now);
    }
  }

  /** A first delivery of a reversal reverses a row exactly when it names the row: by the row's
      link, or by no row's link and the payment the row holds at that moment. */
  lemma ReversedExactlyWhen(st: Store, i: nat, ev: Event, now: int)
    requires LinksDistinct(st.checkouts) && PaymentsDistinct(st.checkouts) && i < |st.checkouts|
    requires Classify(ev.kind).Reversal? && EventKey(ev) !in st.events && !Terminal(st.checkouts[i].status)
    ensures |ProcessWebhook(st, ev, now).0.checkouts| == |st.checkouts|
    ensures Terminal(ProcessWebhook(st, ev, now).0.checkouts[i].status) <==> Names(st.checkouts, i, ev)
  {
    ProcessReverses(st, i, ev, now);
    FoundExactlyWhenNamed(st.checkouts, i, ev);
  }

  // ---------------------------------------------------------------- a stream

  /** Delivery `k` is the first of its key, a reversal, and is resolved to row `i` as it arrives. */
  predicate Strikes(st: Store, ds: seq<Delivery>, k: int, i: nat) {
    && 0 <= k < |ds| && Reaches(Run(st, ds[..k]), i, ds[k].ev) && Classify(ds[k].ev.kind).Reversal?
  }

  lemma StrikesInFront(st: Store, ds: seq<Delivery>, k: int, i: nat)
    requires ds != [] && k < |ds| - 1
    ensures Strikes(st, ds, k, i) <==> Strikes(st, ds[..|ds| - 1], k, i)
  {
    if 0 <= k {
      assert ds[..|ds| - 1][..k] == ds[..k];
    }
  }

  ghost predicate Struck(st: Store, ds: seq<Delivery>, i: nat) {
    exists k :: Strikes(st, ds, k, i)
  }

  /** Whether the last delivery strikes is decided by what it finds. */
  lemma LastStrikes(st: Store, ds: seq<Delivery>, i: nat)
    requires ds != []
    ensures var n := |ds| - 1;
      Strikes(st, ds, n, i) <==> Reaches(Run(st, ds[..n]), i, ds[n].ev) && Classify(ds[n].ev.kind).Reversal?
  {}

  lemma StruckStays(st: Store, ds: seq<Delivery>, i: nat)
    requires ds != [] && Struck(st, ds[..|ds| - 1], i)
    ensures Struck(st, ds, i)
  {
    var k :| Strikes(st, ds[..|ds| - 1], k, i);
    StrikesInFront(st, ds, k, i);
  }

  lemma StruckBefore(st: Store, ds: seq<Delivery>, i: nat)
    requires ds != [] && Struck(st, ds, i)
    ensures Struck(st, ds[..|ds| - 1], i) || Strikes(st, ds, |ds| - 1, i)
  {
    var k :| Strikes(st, ds, k, i);
    if k < |ds| - 1 {
      StrikesInFront(st, ds, k, i);
    }
  }

  /** A row is struck when it was before the last delivery, or the last delivery strikes it. */
  lemma StruckByLast(st: Store, ds: seq<Delivery>, i: nat)
    requires ds != []
    ensures var n := |ds| - 1;
      Struck(st, ds, i) <==>
        Struck(st, ds[..n], i) || (Reaches(Run(st, ds[..n]), i, ds[n].ev) && Classify(ds[n].ev.kind).Reversal?)
  {
    if Struck(st, ds, i) {
      StruckBefore(st, ds, i);
    }
    if Struck(st, ds[..|ds| - 1], i) {
      StruckStays(st, ds, i);
    }
    LastStrikes(st, ds, i);
  }

  /** For every store and stream: a row ends reversed exactly when it was, or when some delivery
      reached it as a reversal. */
  lemma {:induction false} StreamReversesExactlyWhen(st: Store, ds: seq<Delivery>, i: nat)
    requires i < |st.checkouts|
    ensures |Run(st, ds).checkouts| == |st.checkouts|
    ensures Terminal(Run(st, ds).checkouts[i].status) <==> Terminal(st.checkouts[i].status) || Struck(st, ds, i)
  {
    if ds == [] {
    } else {
      var n := |ds| - 1;
      StreamReversesExactlyWhen(st, ds[..n], i);
      ProcessReverses(Run(st, ds[..n]), i, ds[n].ev, ds[n].now);
      StruckByLast(st, ds, i);
    }
  }

  // ---------------------------------------------------------------- the order that matters

  const BUYER := Actor("tenant", "user")

  /** A bound checkout nobody has paid, and two events about its payment: a refund that names only
      the payment, and a confirmation that names payment and link. */
  const UNPAID := Checkout("c", BUYER, "key", Topup, "item", 5, 0, Pending, "L", "url", "", Completed, None, None)
  const ONE_UNPAID := EMPTY_STORE.(checkouts := [UNPAID])
  const BARE_REFUND := Event("refund", "PAYMENT_REFUNDED", "P", "", "")
  const CONFIRMATION := Event("confirmation", "PAYMENT_CONFIRMED", "P", "L", "")

  lemma RefundComesTooEarly()
    ensures ProcessWebhook(ONE_UNPAID, BARE_REFUND, 1).0
      == ONE_UNPAID.(events := map[EventKey(BARE_REFUND) := EventIgnored("PAYMENT_REFUNDED", "")])
  {
    assert CheckoutForProvider(ONE_UNPAID.checkouts, BARE_REFUND) == None;
  }

  lemma KeysDiffer()
    ensures EventKey(BARE_REFUND) != EventKey(CONFIRMATION)
  {
    assert "asaas-event|" + "refund" != "asaas-event|" + "confirmation" by {
      assert ("asaas-event|" + "refund")[|"asaas-event|"|] == 'r';
      assert ("asaas-event|" + "confirmation")[|"asaas-event|"|] == 'c';
    }
  }

  /** Confirming the one checkout, whatever was ignored before. */
  lemma ConfirmationPays(st: Store)
    requires st.checkouts == [UNPAID] && st.money == Money(map[], []) && EventKey(CONFIRMATION) !in st.events
    ensures var st' := ProcessWebhook(st, CONFIRMATION, 2).0;
      && st'.checkouts == [UNPAID.(status := Paid, paymentId := "P", confirmedAt := Some(2))]
      && WalletOf(st'.money.wallets, BUYER).balance == 5
      && st'.events.Keys == st.events.Keys + {EventKey(CONFIRMATION)}
  {
    assert CheckoutForProvider(st.checkouts, CONFIRMATION) == Some(0);
    FoundIsDecided(st, 0, CONFIRMATION, 2);
    assert Transition(Pending, Classify(CONFIRMATION.kind)) == (Confirm, Paid);
    ProcessEvolves(st, CONFIRMATION, 2);
  }

  /** "A reversal dominates in any order" is false of events without a link. Refund, confirmation,
      refund again: the checkout ends paid and its credit stays. Confirmation first: reversed. */
  lemma OrderMattersWithoutLink()
    ensures var early := [Delivery(BARE_REFUND, 1), Delivery(CONFIRMATION, 2), Delivery(BARE_REFUND, 3)];
      var late := [Delivery(CONFIRMATION, 2), Delivery(BARE_REFUND, 3)];
      var paid, reversed := Run(ONE_UNPAID, early), Run(ONE_UNPAID, late);
      && |paid.checkouts| == 1 && paid.checkouts[0].status == Paid && WalletOf(paid.money.wallets, BUYER).balance == 5
      && |reversed.checkouts| == 1 && Terminal(reversed.checkouts[0].status)
    ensures var anchor := (ref: string) => "L";
      Books(ONE_UNPAID, anchor) && Consistent(BARE_REFUND, anchor) && Consistent(CONFIRMATION, anchor)
  {
    KeysDiffer();
    RefundComesTooEarly();
    var spent := ProcessWebhook(ONE_UNPAID, BARE_REFUND, 1).0;
    ConfirmationPays(spent);
    ConfirmationPays(ONE_UNPAID);
    ThreeDeliveries(ONE_UNPAID, Delivery(BARE_REFUND, 1), Delivery(CONFIRMATION, 2), Delivery(BARE_REFUND, 3));
    ThreeDeliveries(ONE_UNPAID, Delivery(CONFIRMATION, 2), Delivery(BARE_REFUND, 3), Delivery(BARE_REFUND, 3));
    LateRefundReverses(ProcessWebhook(ONE_UNPAID, CONFIRMATION, 2).0);
    OneUnpaidIsSound();
  }

  lemma LateRefundReverses(st: Store)
    requires |st.checkouts| == 1 && st.checkouts[0].paymentId == "P" && EventKey(BARE_REFUND) !in st.events
    ensures var cs := ProcessWebhook(st, BARE_REFUND, 3).0.checkouts; |cs| == 1 && Terminal(cs[0].status)
  {
    assert CheckoutForProvider(st.checkouts, BARE_REFUND) == Some(0);
    assert Classify(BARE_REFUND.kind) == Reversal(Refunded);
    ProcessReverses(st, 0, BARE_REFUND, 3);
  }

  lemma OneUnpaidIsSound()
    ensures var anchor := (ref: string) => "L";
      Books(ONE_UNPAID, anchor) && Consistent(BARE_REFUND, anchor) && Consistent(CONFIRMATION, anchor)
  {}

  // ---------------------------------------------------------------- the orders that do not matter

  /** Whatever comes under this key is a reversal with the row's link. */
  predicate ReversesByLink(ds: seq<Delivery>, key: string, c: Checkout) {
    forall k :: 0 <= k < |ds| && EventKey(ds[k].ev) == key ==>
      Classify(ds[k].ev.kind).Reversal? && ds[k].ev.link == c.linkId
  }

  /** Whatever comes under this key is a reversal with no row's link and the row's payment. */
  predicate ReversesByPayment(ds: seq<Delivery>, key: string, c: Checkout, cs: seq<Checkout>) {
    && c.paymentId != ""
    && forall k :: 0 <= k < |ds| && EventKey(ds[k].ev) == key ==>
         Classify(ds[k].ev.kind).Reversal? && NoRowLinked(cs, ds[k].ev.link) && ds[k].ev.payment == c.paymentId
  }

  /** No event of the stream brings another payment under the row's link. */
  predicate OnePayment(ds: seq<Delivery>, c: Checkout) {
    forall k :: 0 <= k < |ds| && ds[k].ev.link == c.linkId ==> ds[k].ev.payment == "" || ds[k].ev.payment == c.paymentId
  }

  lemma {:induction false} FirstUnder(ds: seq<Delivery>, key: string) returns (k: nat)
    requires key in Keys(ds)
    ensures k < |ds| && EventKey(ds[k].ev) == key && key !in Keys(ds[..k])
  {
    var n := |ds| - 1;
    if key in Keys(ds[..n]) {
      k := FirstUnder(ds[..n], key);
      assert ds[..n][..k] == ds[..k];
    } else {
      k := n;
    }
  }

  /** Links are fixed once the rows are there. */
  lemma LinksStay(st: Store, ds: seq<Delivery>)
    ensures |Run(st, ds).checkouts| == |st.checkouts|
    ensures forall k :: 0 <= k < |st.checkouts| ==> Run(st, ds).checkouts[k].linkId == st.checkouts[k].linkId
  {
    RunLength(st, ds);
    forall k | 0 <= k < |st.checkouts| ensures Run(st, ds).checkouts[k].linkId == st.checkouts[k].linkId {
      StreamEvolves(st, ds, k);
    }
  }

  lemma {:induction false} RunLength(st: Store, ds: seq<Delivery>)
    ensures |Run(st, ds).checkouts| == |st.checkouts|
  {
    if ds == [] {
    } else {
      RunLength(st, ds[..|ds| - 1]);
      ProcessEvolves(Run(st, ds[..|ds| - 1]), ds[|ds| - 1].ev, ds[|ds| - 1].now);
    }
  }

  lemma LinkReaches(cs: seq<Checkout>, i: nat, ev: Event)
    requires i < |cs| && LinksDistinct(cs) && ev.link != "" && ev.link == cs[i].linkId
    ensures CheckoutForProvider(cs, ev) == Some(i)
  {}

  /** A reversal with the row's link dominates in every order: if one stands anywhere in the stream
      under a key not claimed before, the row ends reversed. */
  lemma LinkedReversalDominates(st: Store, ds: seq<Delivery>, i: nat, key: string)
    requires LinksDistinct(st.checkouts) && i < |st.checkouts| && st.checkouts[i].linkId != ""
    requires key in Keys(ds) && key !in st.events && ReversesByLink(ds, key, st.checkouts[i])
    ensures |Run(st, ds).checkouts| == |st.checkouts|
    ensures Terminal(Run(st, ds).checkouts[i].status)
  {
    var k := FirstUnder(ds, key);
    LinksStay(st, ds[..k]);
    StreamClaimsKeys(st, ds[..k]);
    LinkReaches(Run(st, ds[..k]).checkouts, i, ds[k].ev);
    assert Strikes(st, ds, k, i);
    StreamReversesExactlyWhen(st, ds, i);
  }

  /** While only one payment comes under its link, a row keeps the payment it holds. */
  lemma {:induction false} PaymentStays(st: Store, ds: seq<Delivery>, i: nat)
    requires i < |st.checkouts| && st.checkouts[i].paymentId != "" && OnePayment(ds, st.checkouts[i])
    ensures |Run(st, ds).checkouts| == |st.checkouts|
    ensures Run(st, ds).checkouts[i].paymentId == st.checkouts[i].paymentId
  {
    if ds == [] {
    } else {
      var n := |ds| - 1;
      assert forall k :: 0 <= k < n ==> ds[..n][k] == ds[k];
      PaymentStays(st, ds[..n], i);
      LinksStay(st, ds[..n]);
      ProcessReverses(Run(st, ds[..n]), i, ds[n].ev, ds[n].now);
    }
  }

  lemma PaymentReaches(cs: seq<Checkout>, i: nat, ev: Event)
    requires i < |cs| && PaymentsDistinct(cs) && NoRowLinked(cs, ev.link)
    requires ev.payment != "" && ev.payment == cs[i].paymentId
    ensures CheckoutForProvider(cs, ev) == Some(i)
  {}

  /** So does a reversal without the row's link, in every order of a stream that brings no other
      payment for the row, if the row already holds the payment it names. */
  lemma UnlinkedReversalDominates(st: Store, ds: seq<Delivery>, i: nat, key: string, anchor: string -> string)
    requires Books(st, anchor) && AllConsistent(ds, anchor) && i < |st.checkouts|
    requires key in Keys(ds) && key !in st.events
    requires ReversesByPayment(ds, key, st.checkouts[i], st.checkouts) && OnePayment(ds, st.checkouts[i])
    ensures |Run(st, ds).checkouts| == |st.checkouts|
    ensures Terminal(Run(st, ds).checkouts[i].status)
  {
    var k := FirstUnder(ds, key);
    var before := Run(st, ds[..k]);
    LinksStay(st, ds[..k]);
    PaymentStays(st, ds[..k], i);
    StreamClaimsKeys(st, ds[..k]);
    StreamKeepsBooks(st, ds[..k], anchor);
    PaymentsAreDistinct(before.checkouts, anchor);
    PaymentReaches(before.checkouts, i, ds[k].ev);
    assert Strikes(st, ds, k, i);
    StreamReversesExactlyWhen(st, ds, i);
  }

  /** For such reversals, permuting or redelivering a stream changes nothing that matters: the
      checkout ends reversed with at most one credit and one reversal, which together with the
      shortfall is that whole credit. */
  lemma ReversalSurvivesReordering(st: Store, ds: seq<Delivery>, ds': seq<Delivery>, i: nat, key: string,
      anchor: string -> string)
    requires Books(st, anchor) && AllConsistent(ds', anchor) && i < |st.checkouts| && st.checkouts[i].linkId != ""
    requires forall k :: 0 <= k < |ds| ==> exists j :: 0 <= j < |ds'| && ds'[j].ev == ds[k].ev
    requires key in Keys(ds) && key !in st.events
    requires
      || ReversesByLink(ds', key, st.checkouts[i])
      || (ReversesByPayment(ds', key, st.checkouts[i], st.checkouts) && OnePayment(ds', st.checkouts[i]))
    ensures |Run(st, ds').checkouts| == |st.checkouts|
    ensures var c := Run(st, ds').checkouts[i]; var ledger := Run(st, ds').money.ledger;
      var credits := RowsOf(ledger, c.id, Credit); var debits := RowsOf(ledger, c.id, Debit);
      && Terminal(c.status)
      && |credits| <= 1 && |debits| == |credits|
      && (|credits| == 1 ==> debits[0].amount + debits[0].unrecovered == credits[0].amount)
  {
    var r :| 0 <= r < |ds| && EventKey(ds[r].ev) == key;
    var j :| 0 <= j < |ds'| && ds'[j].ev == ds[r].ev;
    assert EventKey(ds'[j].ev) in Keys(ds');
    if ReversesByLink(ds', key, st.checkouts[i]) {
      LinkedReversalDominates(st, ds', i, key);
    } else {
      UnlinkedReversalDominates(st, ds', i, key, anchor);
    }
    StreamKeepsBooks(st, ds', anchor);
    assert CheckoutBooks(Run(st, ds').checkouts[i], Run(st, ds').money.ledger);
  }
}
