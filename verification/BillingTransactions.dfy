/** The transaction rows and the references money is posted under. */
module BillingTransactions {
  import opened Common
  import opened BillingModel
  import opened BillingLedger
  import opened BillingSteps
  import opened BillingRuns
  import opened BillingReversals
  import opened BillingStatuses

  // ---------------------------------------------------------------- what the transactions tell

  /** The row records the confirmation or the reversal of this very checkout, at its time and under
      a reference that belongs to its link. */
  predicate Records(c: Checkout, key: TransactionKey, tx: Transaction, anchor: string -> string) {
    && tx.actor == c.actor && tx.checkoutId == c.id && c.linkId != "" && anchor(key.ref) == c.linkId
    && match key.status
       case Paid => c.confirmedAt == Some(tx.at) && key.charge == if c.kind == Topup then WalletTopup else Recurring
       case Refunded => c.status == Refunded && c.reversedAt == Some(tx.at) && key.charge == RefundCharge
       case Chargeback => c.status == Chargeback && c.reversedAt == Some(tx.at) && key.charge == ChargebackCharge
       case _ => false
  }

  ghost predicate RecordsSome(cs: seq<Checkout>, key: TransactionKey, tx: Transaction, anchor: string -> string) {
    exists i :: 0 <= i < |cs| && Records(cs[i], key, tx, anchor)
  }

  ghost predicate Explained(cs: seq<Checkout>, txs: map<TransactionKey, Transaction>, anchor: string -> string) {
    forall key :: key in txs ==> RecordsSome(cs, key, txs[key], anchor)
  }

  predicate IsOf(txs: map<TransactionKey, Transaction>, key: TransactionKey, id: string, status: Status) {
    key in txs && key.status == status && txs[key].checkoutId == id
  }

  ghost predicate HasRecord(txs: map<TransactionKey, Transaction>, id: string, status: Status) {
    exists key :: IsOf(txs, key, id, status)
  }

  /** Whatever was confirmed or reversed has its row. */
  predicate Due(c: Checkout, status: Status) {
    (status == Paid && c.confirmedAt.Some?) || (Terminal(status) && c.status == status)
  }

  ghost predicate Complete(cs: seq<Checkout>, txs: map<TransactionKey, Transaction>) {
    forall i, status :: 0 <= i < |cs| && Due(cs[i], status) ==> HasRecord(txs, cs[i].id, status)
  }

  /** One row for each checkout and status. */
  ghost predicate Single(txs: map<TransactionKey, Transaction>) {
    forall j, k :: j in txs && k in txs && j.status == k.status && txs[j].checkoutId == txs[k].checkoutId ==> j == k
  }

  /** The transactions are the confirmations and reversals of the checkouts, each recorded once. */
  ghost predicate TransactionsTell(cs: seq<Checkout>, txs: map<TransactionKey, Transaction>,
      anchor: string -> string) {
    Explained(cs, txs, anchor) && Complete(cs, txs) && Single(txs)
  }

  // ---------------------------------------------------------------- one row rewritten

  /** What a rewritten row must keep for its transactions to stay true. */
  predicate Keeps(c: Checkout, c': Checkout) {
    && c'.id == c.id && c'.actor == c.actor && c'.kind == c.kind
    && (c.linkId != "" ==> c'.linkId == c.linkId)
    && (c.confirmedAt.Some? ==> c'.confirmedAt == c.confirmedAt)
    && (Terminal(c.status) ==> c'.status == c.status && c'.reversedAt == c.reversedAt)
  }

  lemma RewriteExplains(cs: seq<Checkout>, i: nat, c: Checkout, txs: map<TransactionKey, Transaction>,
      anchor: string -> string)
    requires Explained(cs, txs, anchor) && i < |cs| && Keeps(cs[i], c)
    ensures Explained(cs[i := c], txs, anchor)
  {
    forall key | key in txs ensures RecordsSome(cs[i := c], key, txs[key], anchor) {
      assert RecordsSome(cs, key, txs[key], anchor);
      var j :| 0 <= j < |cs| && Records(cs[j], key, txs[key], anchor);
      assert Records(cs[i := c][j], key, txs[key], anchor);
    }
  }

  /** A rewritten row for which nothing new is due. */
  lemma RewriteTells(cs: seq<Checkout>, i: nat, c: Checkout, txs: map<TransactionKey, Transaction>,
      anchor: string -> string)
    requires TransactionsTell(cs, txs, anchor) && i < |cs| && Keeps(cs[i], c)
    requires c.confirmedAt == cs[i].confirmedAt && (Terminal(c.status) ==> c.status == cs[i].status)
    ensures TransactionsTell(cs[i := c], txs, anchor)
  {
    RewriteExplains(cs, i, c, txs, anchor);
    var cs' := cs[i := c];
    forall j, status | 0 <= j < |cs| && Due(cs'[j], status) ensures HasRecord(txs, cs'[j].id, status) {
      assert Due(cs[j], status);
    }
  }

  /** Nothing is recorded yet of what is only now due. */
  lemma NotYetRecorded(cs: seq<Checkout>, i: nat, status: Status, txs: map<TransactionKey, Transaction>,
      anchor: string -> string)
    requires TransactionsTell(cs, txs, anchor) && IdsDistinct(cs) && LinksDistinct(cs)
    requires i < |cs| && !Due(cs[i], status) && (status == Paid || Terminal(status))
    ensures !HasRecord(txs, cs[i].id, status)
    ensures forall key :: key in txs && key.status == status ==> cs[i].linkId == "" || anchor(key.ref) != cs[i].linkId
  {
    forall key | key in txs && key.status == status
      ensures txs[key].checkoutId != cs[i].id && (cs[i].linkId == "" || anchor(key.ref) != cs[i].linkId)
    {
      assert RecordsSome(cs, key, txs[key], anchor);
      var j :| 0 <= j < |cs| && Records(cs[j], key, txs[key], anchor);
      assert Due(cs[j], status) && j != i;
    }
  }

  /** A row for which one more transaction is due, and is written. */
  lemma RecordTells(cs: seq<Checkout>, i: nat, c: Checkout, txs: map<TransactionKey, Transaction>,
      key: TransactionKey, now: int, anchor: string -> string)
    requires TransactionsTell(cs, txs, anchor) && IdsDistinct(cs) && LinksDistinct(cs)
    requires i < |cs| && Keeps(cs[i], c) && cs[i].linkId != ""
    requires Records(c, key, Transaction(c.actor, c.id, now), anchor) && !Due(cs[i], key.status)
    requires forall status :: Due(c, status) ==> status == key.status || Due(cs[i], status)
    ensures key !in txs
    ensures TransactionsTell(cs[i := c], txs[key := Transaction(c.actor, c.id, now)], anchor)
  {
    NotYetRecorded(cs, i, key.status, txs, anchor);
    RewriteExplains(cs, i, c, txs, anchor);
    var cs', txs' := cs[i := c], txs[key := Transaction(c.actor, c.id, now)];
    assert Records(cs'[i], key, txs'[key], anchor);
    assert IsOf(txs', key, c.id, key.status);
    forall j, status | 0 <= j < |cs| && Due(cs'[j], status) ensures HasRecord(txs', cs'[j].id, status) {
      if j != i || status != key.status {
        assert Due(cs[j], status);
        var k :| IsOf(txs, k, cs[j].id, status);
        assert IsOf(txs', k, cs[j].id, status);
      }
    }
    forall k | k in txs' && k.status == key.status && txs'[k].checkoutId == c.id ensures k == key {
      assert k in txs ==> IsOf(txs, k, cs[i].id, key.status);
    }
  }

  // ---------------------------------------------------------------- one webhook

  lemma ConfirmTells(st: Store, i: nat, c: Checkout, ref: string, now: int, anchor: string -> string)
    requires TransactionsTell(st.checkouts, st.transactions, anchor) && CheckoutsOk(st.checkouts, anchor)
    requires i < |st.checkouts| && c == st.checkouts[i].(paymentId := c.paymentId)
    requires c.linkId != "" && anchor(ref) == c.linkId && c.confirmedAt.None? && !Terminal(c.status)
    ensures var st' := ApplyConfirm(st, i, c, ref, now); TransactionsTell(st'.checkouts, st'.transactions, anchor)
  {
    RecordTells(st.checkouts, i, ConfirmedRow(c, now), st.transactions, ConfirmedKey(c, ref), now, anchor);
  }

  lemma ReverseTells(st: Store, i: nat, c: Checkout, ref: string, status: Status, now: int, anchor: string -> string)
    requires TransactionsTell(st.checkouts, st.transactions, anchor) && CheckoutsOk(st.checkouts, anchor)
    requires i < |st.checkouts| && c == st.checkouts[i].(paymentId := c.paymentId)
    requires c.linkId != "" && anchor(ref) == c.linkId && !Terminal(c.status) && Terminal(status)
    ensures var st' := ApplyReverse(st, i, c, ref, status, now);
      TransactionsTell(st'.checkouts, st'.transactions, anchor)
  {
    RecordTells(st.checkouts, i, ReversedRow(c, status, now), st.transactions, ReversedKey(ref, status), now, anchor);
  }

  lemma DecideTells(st: Store, i: nat, c: Checkout, ref: string, family: EventFamily, now: int,
      anchor: string -> string)
    requires TransactionsTell(st.checkouts, st.transactions, anchor) && CheckoutsOk(st.checkouts, anchor)
    requires i < |st.checkouts| && c == st.checkouts[i].(paymentId := c.paymentId)
    requires c.linkId != "" && anchor(ref) == c.linkId && (family.Reversal? ==> Terminal(family.status))
    ensures var st' := Decide(st, i, c, ref, family, now); TransactionsTell(st'.checkouts, st'.transactions, anchor)
  {
    match Transition(c.status, family).0
    case Confirm =>
      assert CheckoutShape(st.checkouts[i]);
      ConfirmTells(st, i, c, ref, now, anchor);
    case Reverse => ReverseTells(st, i, c, ref, family.status, now, anchor);
    case _ =>
      RewriteTells(st.checkouts, i, c.(status := Transition(c.status, family).1), st.transactions, anchor);
  }

  lemma ProcessTells(st: Store, ev: Event, now: int, anchor: string -> string)
    requires TransactionsTell(st.checkouts, st.transactions, anchor) && CheckoutsOk(st.checkouts, anchor)
    requires Consistent(ev, anchor)
    ensures var st' := ProcessWebhook(st, ev, now).0; TransactionsTell(st'.checkouts, st'.transactions, anchor)
  {
    var found := CheckoutForProvider(st.checkouts, ev);
    if EventKey(ev) !in st.events && found.Some? {
      var i := found.value;
      var c := WithPayment(st.checkouts[i], ev);
      ResolvedIsAnchored(st.checkouts, i, ev, anchor);
      FoundIsDecided(st, i, ev, now);
      DecideTells(Claimed(st, i, ev), i, c, PaymentRef(c, ev), Classify(ev.kind), now, anchor);
    }
  }

  /** Over every stream the transaction rows are exactly the confirmations and reversals of the
      checkouts: one for each, at its time, under its charge and a reference of its link. */
  lemma {:induction false} StreamKeepsTransactions(st: Store, ds: seq<Delivery>, anchor: string -> string)
    requires Books(st, anchor) && AllConsistent(ds, anchor)
    requires TransactionsTell(st.checkouts, st.transactions, anchor)
    ensures TransactionsTell(Run(st, ds).checkouts, Run(st, ds).transactions, anchor)
  {
    if ds == [] {
    } else {
      var front, d := ds[..|ds| - 1], ds[|ds| - 1];
      StreamKeepsTransactions(st, front, anchor);
      StreamKeepsBooks(st, front, anchor);
      ProcessTells(Run(st, front), d.ev, d.now, anchor);
    }
  }
}
