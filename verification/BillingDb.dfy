/** The billing tables as the program updates them: row columns rewritten in place and ledger
    rows appended. Each method is proved against its function in `BillingModel`. */
module BillingDb {
  import opened Common
  import opened BillingModel

  class Tables {
    var checkouts: seq<Checkout>
    var wallets: map<Actor, Wallet>
    var ledger: seq<LedgerRow>
    var entitlements: map<Actor, Entitlement>
    var transactions: map<TransactionKey, Transaction>
    var events: map<string, EventRow>

    function Contents(): Store
      reads this
    {
      Store(checkouts, Money(wallets, ledger), entitlements, transactions, events)
    }

    constructor ()
      ensures Contents() == EMPTY_STORE
    {
      checkouts, wallets, ledger := [], map[], [];
      entitlements, transactions, events := map[], map[], map[];
    }

    method GetOrCreateWallet(a: Actor) returns (w: Wallet)
      modifies this`wallets
      ensures w == WalletOf(old(wallets), a)
      ensures wallets == old(wallets)[a := w]
    {
      if a !in wallets {
        wallets := wallets[a := EMPTY_WALLET];
      }
      w := wallets[a];
    }

    method AddCredit(c: Checkout, ref: string, amount: int)
      modifies this`wallets, this`ledger
      ensures Money(wallets, ledger) == CreditWallet(Money(old(wallets), old(ledger)), c, ref, amount)
    {
      var w := GetOrCreateWallet(c.actor);
      var key := LedgerKey(ref, CreditTag);
      if amount <= 0 || LedgerHas(ledger, c.actor.tenant, key) {
        return;
      }
      var balance := w.balance + amount;
      wallets := wallets[c.actor := w.(balance := balance, credited := w.credited + amount)];
      ledger := ledger + [LedgerRow(c.actor, Credit, key, amount, balance, c.id, 0)];
    }

    method TakeBackCredit(c: Checkout, ref: string, status: Status)
      modifies this`wallets, this`ledger
      ensures Money(wallets, ledger) == ReverseCheckoutCredit(Money(old(wallets), old(ledger)), c, ref, status)
    {
      var key := LedgerKey(ref, ReversalTag(status));
      if LedgerHas(ledger, c.actor.tenant, key) {
        return;
      }
      var original := OriginalCredit(ledger, c.actor, c.id);
      if original.None? {
        return;
      }
      var w := GetOrCreateWallet(c.actor);
      var target := original.value.amount;
      var actual := if w.balance < target then w.balance else target;
      var shortfall := target - actual;
      var balance := w.balance - actual;
      w := w.(balance := balance, debited := w.debited + actual);
      if shortfall > 0 {
        w := w.(status := Quarantined, quarantined := w.quarantined + shortfall);
      }
      wallets := wallets[c.actor := w];
      ledger := ledger + [LedgerRow(c.actor, Debit, key, actual, balance, c.id, shortfall)];
    }

    method Activate(c: Checkout, now: int)
      modifies this`entitlements
      ensures entitlements == ActivateEntitlement(old(entitlements), c, now)
    {
      if c.kind != Plan {
        return;
      }
      var expires := now + EntitlementDays(c) * SECONDS_PER_DAY;
      if c.actor !in entitlements {
        entitlements := entitlements[c.actor := Entitlement(c.item, true, Paid, c.id, now, expires, now)];
      } else {
        var e := entitlements[c.actor];
        e := e.(item := c.item, active := true, reason := Paid, checkoutId := c.id);
        e := e.(expiresAt := expires, lastPaymentAt := now);
        entitlements := entitlements[c.actor := e];
      }
    }

    method Revoke(c: Checkout, status: Status)
      modifies this`entitlements
      ensures entitlements == RevokeEntitlement(old(entitlements), c, status)
    {
      if c.kind != Plan || c.actor !in entitlements {
        return;
      }
      entitlements := entitlements[c.actor := entitlements[c.actor].(active := false, reason := status)];
    }

    method Record(c: Checkout, key: TransactionKey, now: int)
      modifies this`transactions
      ensures transactions == RecordTransaction(old(transactions), c, key, now)
    {
      if key !in transactions {
        transactions := transactions[key := Transaction(c.actor, c.id, now)];
      }
    }

    method UpdateRow(i: nat, c: Checkout)
      requires i < |checkouts|
      modifies this`checkouts
      ensures checkouts == old(checkouts)[i := c]
    {
      checkouts := checkouts[i := c];
    }

    method ApplyDecision(i: nat, c: Checkout, ref: string, family: EventFamily, now: int)
      requires i < |checkouts|
      modifies this
      ensures Contents() == Decide(old(Contents()), i, c, ref, family, now)
    {
      var (decision, next) := Transition(c.status, family);
      match decision
      case Confirm =>
        var c' := ConfirmedRow(c, now);
        UpdateRow(i, c');
        Activate(c', now);
        Record(c', ConfirmedKey(c, ref), now);
        AddCredit(c', ref, c.included);
      case Reverse =>
        var c' := ReversedRow(c, next, now);
        UpdateRow(i, c');
        Revoke(c', next);
        Record(c', ReversedKey(ref, next), now);
        TakeBackCredit(c', ref, next);
      case Expire =>
        UpdateRow(i, c.(status := next));
        Revoke(c, next);
      case Cancel =>
        UpdateRow(i, c.(status := next));
        Revoke(c, next);
      case _ =>
        UpdateRow(i, c);
    }

    /** The whole webhook: claim the key, find the checkout, apply the decision, commit. A
        missing payment reference raises, and nothing of the transaction stays. */
    method ProcessAsaasWebhook(ev: Event, now: int) returns (reply: Reply)
      modifies this
      ensures (Contents(), reply) == ProcessWebhook(old(Contents()), ev, now)
    {
      var key := EventKey(ev);
      if key in events {
        return Deduplicated;
      }
      var found := CheckoutForProvider(checkouts, ev);
      if found.None? {
        events := events[key := EventIgnored(ev.kind, "")];
        return NotFound;
      }
      var c := WithPayment(checkouts[found.value], ev);
      var ref := PaymentRef(c, ev);
      if ref == "" {
        return ReferenceMissing;
      }
      var family := Classify(ev.kind);
      var decision := Transition(c.status, family).0;
      events := events[key := Outcome(decision, ev.kind, c.id)];
      ApplyDecision(found.value, c, ref, family, now);
      reply := DecisionReply(decision);
    }
  }
}
