/** Every webhook keeps the books: the step-by-step preservation proofs. */
module BillingSteps {
  import opened Common
  import opened BillingModel
  import opened BillingLedger

  // ---------------------------------------------------------------- one row rewritten

  lemma RewriteKeepsCheckouts(cs: seq<Checkout>, i: nat, c: Checkout, anchor: string -> string)
    requires CheckoutsOk(cs, anchor) && i < |cs|
    requires c.id == cs[i].id && c.linkId == cs[i].linkId && CheckoutShape(c) && Anchored(c, anchor)
    ensures CheckoutsOk(cs[i := c], anchor)
  {}

  lemma RewriteKeepsOwned(cs: seq<Checkout>, i: nat, c: Checkout, ledger: seq<LedgerRow>, anchor: string -> string)
    requires AllOwned(cs, ledger, anchor) && i < |cs|
    requires c.id == cs[i].id && c.actor == cs[i].actor && (cs[i].linkId != "" ==> c.linkId == cs[i].linkId)
    ensures AllOwned(cs[i := c], ledger, anchor)
  {
    forall k | 0 <= k < |ledger| && ledger[k].checkoutId != "" ensures RowOwned(cs[i := c], ledger[k], anchor) {
      var j :| 0 <= j < |cs| && Owns(cs[j], ledger[k], anchor);
      assert Owns(cs[i := c][j], ledger[k], anchor);
    }
  }

  lemma PostKeepsOwned(cs: seq<Checkout>, i: nat, ledger: seq<LedgerRow>, row: LedgerRow, anchor: string -> string)
    requires AllOwned(cs, ledger, anchor) && i < |cs| && Owns(cs[i], row, anchor)
    ensures AllOwned(cs, ledger + [row], anchor)
  {}

  lemma RewriteKeepsBooks(cs: seq<Checkout>, i: nat, c: Checkout, ledger: seq<LedgerRow>)
    requires AllBooks(cs, ledger) && i < |cs| && CheckoutBooks(c, ledger)
    ensures AllBooks(cs[i := c], ledger)
  {}

  /** A row posted for checkout `i` changes no other checkout's books. */
  lemma PostKeepsBooks(cs: seq<Checkout>, i: nat, c: Checkout, ledger: seq<LedgerRow>, row: LedgerRow)
    requires AllBooks(cs, ledger) && IdsDistinct(cs) && i < |cs| && row.checkoutId == cs[i].id
    requires CheckoutBooks(c, ledger + [row])
    ensures AllBooks(cs[i := c], ledger + [row])
  {
    Append(ledger, row);
    forall k | 0 <= k < |cs| && k != i ensures CheckoutBooks(cs[k], ledger + [row]) {
      assert CheckoutBooks(cs[k], ledger);
    }
  }

  // ---------------------------------------------------------------- the three kinds of step

  /** A step that posts nothing keeps the books if the checkout's history stays as it was. */
  lemma QuietKeepsBooks(cs: seq<Checkout>, i: nat, c: Checkout, m: Money, m': Money, anchor: string -> string)
    requires CheckoutsOk(cs, anchor) && AllBooks(cs, m.ledger) && AllOwned(cs, m.ledger, anchor) && WalletsMatch(m')
    requires i < |cs| && SameRow(cs[i], c) && CheckoutShape(c) && Anchored(c, anchor)
    requires CheckoutBooks(c, m.ledger) && m'.ledger == m.ledger
    ensures CheckoutsOk(cs[i := c], anchor) && AllBooks(cs[i := c], m'.ledger)
    ensures AllOwned(cs[i := c], m'.ledger, anchor)
  {
    RewriteKeepsCheckouts(cs, i, c, anchor);
    RewriteKeepsOwned(cs, i, c, m.ledger, anchor);
    RewriteKeepsBooks(cs, i, c, m.ledger);
  }

  lemma PostingKeepsBooks(cs: seq<Checkout>, i: nat, c: Checkout, ledger: seq<LedgerRow>, row: LedgerRow,
      anchor: string -> string)
    requires CheckoutsOk(cs, anchor) && AllBooks(cs, ledger) && AllOwned(cs, ledger, anchor)
    requires i < |cs| && SameRow(cs[i], c) && CheckoutShape(c) && Anchored(c, anchor)
    requires Owns(c, row, anchor) && CheckoutBooks(c, ledger + [row])
    ensures CheckoutsOk(cs[i := c], anchor) && AllBooks(cs[i := c], ledger + [row])
    ensures AllOwned(cs[i := c], ledger + [row], anchor)
  {
    RewriteKeepsCheckouts(cs, i, c, anchor);
    RewriteKeepsOwned(cs, i, c, ledger, anchor);
    PostKeepsOwned(cs[i := c], i, ledger, row, anchor);
    PostKeepsBooks(cs, i, c, ledger, row);
  }

  function CreditRow(c: Checkout, m: Money, ref: string): LedgerRow {
    LedgerRow(c.actor, Credit, LedgerKey(ref, CreditTag), c.included,
              WalletOf(m.wallets, c.actor).balance + c.included, c.id, 0)
  }

  /** A first confirmation posts the whole included credit: nothing earlier carries its key. */
  lemma CreditEffect(cs: seq<Checkout>, i: nat, c: Checkout, m: Money, ref: string, anchor: string -> string)
    requires i < |cs| && LinksDistinct(cs) && LedgerShape(m.ledger) && AllOwned(cs, m.ledger, anchor)
    requires CheckoutBooks(cs[i], m.ledger) && cs[i].linkId != "" && anchor(ref) == cs[i].linkId
    requires cs[i].confirmedAt.None?
    requires c.id == cs[i].id && c.actor == cs[i].actor
    ensures CreditWallet(m, c, ref, c.included).ledger ==
      if c.included > 0 then m.ledger + [CreditRow(c, m, ref)] else m.ledger
    ensures c.included > 0 ==> CreditWallet(m, c, ref, c.included).wallets == m.wallets[c.actor :=
      var w := WalletOf(m.wallets, c.actor); w.(balance := w.balance + c.included, credited := w.credited + c.included)]
  {
    if LedgerHas(m.ledger, c.actor.tenant, LedgerKey(ref, CreditTag)) {
      KeyOfCheckout(cs, m.ledger, anchor, i, LedgerKey(ref, CreditTag));
    }
  }

  lemma CreditRowBooks(c: Checkout, c': Checkout, m: Money, ref: string)
    requires CheckoutBooks(c, m.ledger) && c.confirmedAt.None?
    requires c'.id == c.id && c'.included == c.included && c'.confirmedAt.Some? && !Terminal(c'.status)
    ensures c'.included > 0 ==> CheckoutBooks(c', m.ledger + [CreditRow(c', m, ref)])
    ensures c'.included <= 0 ==> CheckoutBooks(c', m.ledger)
  {
    Append(m.ledger, CreditRow(c', m, ref));
  }

  lemma ConfirmKeepsBooks(cs: seq<Checkout>, i: nat, c: Checkout, m: Money, ref: string, now: int,
      anchor: string -> string)
    requires CheckoutsOk(cs, anchor) && AllBooks(cs, m.ledger) && AllOwned(cs, m.ledger, anchor) && WalletsMatch(m)
    requires i < |cs| && c == cs[i].(paymentId := c.paymentId) && Anchored(c, anchor)
    requires c.linkId != "" && anchor(ref) == c.linkId && cs[i].confirmedAt.None?
    ensures var c' := ConfirmedRow(c, now); var ledger' := CreditWallet(m, c', ref, c.included).ledger;
      CheckoutsOk(cs[i := c'], anchor) && AllBooks(cs[i := c'], ledger') && AllOwned(cs[i := c'], ledger', anchor)
  {
    var c' := ConfirmedRow(c, now);
    CreditEffect(cs, i, c', m, ref, anchor);
    CreditRowBooks(cs[i], c', m, ref);
    if c.included > 0 {
      PostingKeepsBooks(cs, i, c', m.ledger, CreditRow(c', m, ref), anchor);
    } else {
      QuietKeepsBooks(cs, i, c', m, m, anchor);
    }
  }

  /** What a reversal finds: no earlier reversal row, and the one credit the checkout was given. */
  lemma ReversalEffect(cs: seq<Checkout>, i: nat, m: Money, ref: string, status: Status, anchor: string -> string)
    requires CheckoutsOk(cs, anchor) && LedgerShape(m.ledger) && AllOwned(cs, m.ledger, anchor)
    requires AllBooks(cs, m.ledger)
    requires i < |cs| && cs[i].linkId != "" && anchor(ref) == cs[i].linkId && !Terminal(cs[i].status)
    ensures !LedgerHas(m.ledger, cs[i].actor.tenant, LedgerKey(ref, ReversalTag(status)))
    ensures var original := OriginalCredit(m.ledger, cs[i].actor, cs[i].id);
      if HasCredit(cs[i]) then original.Some? && original.value.amount == cs[i].included else original.None?
  {
    assert CheckoutBooks(cs[i], m.ledger);
    OriginalOfCheckout(cs, m.ledger, anchor, i);
    if LedgerHas(m.ledger, cs[i].actor.tenant, LedgerKey(ref, ReversalTag(status))) {
      KeyOfCheckout(cs, m.ledger, anchor, i, LedgerKey(ref, ReversalTag(status)));
    }
  }

  lemma ReverseKeepsBooks(cs: seq<Checkout>, i: nat, c: Checkout, m: Money, ref: string, status: Status, now: int,
                          anchor: string -> string)
    requires CheckoutsOk(cs, anchor) && AllBooks(cs, m.ledger) && AllOwned(cs, m.ledger, anchor) && WalletsMatch(m)
    requires i < |cs| && c == cs[i].(paymentId := c.paymentId) && Anchored(c, anchor)
    requires c.linkId != "" && anchor(ref) == c.linkId && !Terminal(c.status) && Terminal(status)
    ensures var c' := ReversedRow(c, status, now); var m' := ReverseCheckoutCredit(m, c', ref, status);
      CheckoutsOk(cs[i := c'], anchor) && AllBooks(cs[i := c'], m'.ledger) && AllOwned(cs[i := c'], m'.ledger, anchor)
  {
    var c' := ReversedRow(c, status, now);
    var m' := ReverseCheckoutCredit(m, c', ref, status);
    ReversalEffect(cs, i, m, ref, status, anchor);
    assert CheckoutBooks(cs[i], m.ledger);
    if HasCredit(c) {
      var row := m'.ledger[|m.ledger|];
      Append(m.ledger, row);
      PostingKeepsBooks(cs, i, c', m.ledger, row, anchor);
    } else {
      QuietKeepsBooks(cs, i, c', m, m, anchor);
    }
  }

  // ---------------------------------------------------------------- one webhook

  /** The checkout an event names is bound, and the reference it is paid under is anchored to it. */
  lemma ResolvedIsAnchored(cs: seq<Checkout>, i: nat, ev: Event, anchor: string -> string)
    requires CheckoutsOk(cs, anchor) && Consistent(ev, anchor)
    requires CheckoutForProvider(cs, ev) == Some(i)
    ensures cs[i].linkId != ""
    ensures var c := WithPayment(cs[i], ev);
      CheckoutShape(c) && Anchored(c, anchor) && PaymentRef(c, ev) != "" && anchor(PaymentRef(c, ev)) == c.linkId
  {
    assert CheckoutShape(cs[i]) && Anchored(cs[i], anchor);
  }

  lemma ApplyConfirmKeepsBooks(st: Store, i: nat, c: Checkout, ref: string, now: int, anchor: string -> string)
    requires Books(st, anchor) && i < |st.checkouts|
    requires c == st.checkouts[i].(paymentId := c.paymentId) && Anchored(c, anchor)
    requires c.linkId != "" && anchor(ref) == c.linkId && c.confirmedAt.None?
    ensures Books(ApplyConfirm(st, i, c, ref, now), anchor)
  {
    CreditKeepsWallets(st.money, ConfirmedRow(c, now), ref, c.included);
    ConfirmKeepsBooks(st.checkouts, i, c, st.money, ref, now, anchor);
  }

  lemma ApplyReverseKeepsBooks(st: Store, i: nat, c: Checkout, ref: string, status: Status, now: int,
      anchor: string -> string)
    requires Books(st, anchor) && i < |st.checkouts|
    requires c == st.checkouts[i].(paymentId := c.paymentId) && Anchored(c, anchor)
    requires c.linkId != "" && anchor(ref) == c.linkId && !Terminal(c.status) && Terminal(status)
    ensures Books(ApplyReverse(st, i, c, ref, status, now), anchor)
  {
    ReverseKeepsWallets(st.money, ReversedRow(c, status, now), ref, status);
    ReverseKeepsBooks(st.checkouts, i, c, st.money, ref, status, now, anchor);
  }

  lemma RewriteKeepsStore(st: Store, i: nat, c: Checkout, anchor: string -> string)
    requires Books(st, anchor) && i < |st.checkouts|
    requires SameRow(st.checkouts[i], c) && CheckoutShape(c) && Anchored(c, anchor)
    requires c.confirmedAt == st.checkouts[i].confirmedAt
    requires Terminal(c.status) || Terminal(st.checkouts[i].status) ==> c.status == st.checkouts[i].status
    ensures Books(st.(checkouts := st.checkouts[i := c]), anchor)
  {
    assert CheckoutBooks(st.checkouts[i], st.money.ledger);
    QuietKeepsBooks(st.checkouts, i, c, st.money, st.money, anchor);
  }

  lemma DecideKeepsBooks(st: Store, i: nat, c: Checkout, ref: string, family: EventFamily, now: int,
      anchor: string -> string)
    requires Books(st, anchor) && i < |st.checkouts| && (family.Reversal? ==> Terminal(family.status))
    requires c == st.checkouts[i].(paymentId := c.paymentId) && CheckoutShape(c) && Anchored(c, anchor)
    requires c.linkId != "" && anchor(ref) == c.linkId
    ensures Books(Decide(st, i, c, ref, family, now), anchor)
  {
    match Transition(c.status, family).0
    case Confirm => ApplyConfirmKeepsBooks(st, i, c, ref, now, anchor);
    case Reverse => ApplyReverseKeepsBooks(st, i, c, ref, family.status, now, anchor);
    case _ => RewriteKeepsStore(st, i, c.(status := Transition(c.status, family).1), anchor);
  }

  lemma FoundKeepsBooks(st: Store, i: nat, ev: Event, now: int, anchor: string -> string)
    requires Books(st, anchor) && Consistent(ev, anchor)
    requires CheckoutForProvider(st.checkouts, ev) == Some(i)
    ensures Books(ProcessFound(st, i, ev, now).0, anchor)
    ensures ProcessFound(st, i, ev, now).1 != ReferenceMissing
  {
    ResolvedIsAnchored(st.checkouts, i, ev, anchor);
    ClaimKeepsRest(st, i, ev, anchor);
    DecidedKeepsBooks(Claimed(st, i, ev), i, ev, now, anchor);
    FoundIsDecided(st, i, ev, now);
  }

  lemma DecidedKeepsBooks(st: Store, i: nat, ev: Event, now: int, anchor: string -> string)
    requires Books(st, anchor) && i < |st.checkouts|
    requires var c := WithPayment(st.checkouts[i], ev);
      CheckoutShape(c) && Anchored(c, anchor) && c.linkId != "" && anchor(PaymentRef(c, ev)) == c.linkId
    ensures Books(Decided(st, i, ev, now), anchor)
  {
    var c := WithPayment(st.checkouts[i], ev);
    DecideKeepsBooks(st, i, c, PaymentRef(c, ev), Classify(ev.kind), now, anchor);
  }

  function Decided(st: Store, i: nat, ev: Event, now: int): Store
    requires i < |st.checkouts|
  {
    var c := WithPayment(st.checkouts[i], ev);
    Decide(st, i, c, PaymentRef(c, ev), Classify(ev.kind), now)
  }

  /** The store once the event's key is claimed. */
  function Claimed(st: Store, i: nat, ev: Event): Store
    requires i < |st.checkouts|
  {
    var c := WithPayment(st.checkouts[i], ev);
    Claim(st, ev, Outcome(Transition(c.status, Classify(ev.kind)).0, ev.kind, c.id))
  }

  lemma FoundIsDecided(st: Store, i: nat, ev: Event, now: int)
    requires i < |st.checkouts| && PaymentRef(WithPayment(st.checkouts[i], ev), ev) != ""
    ensures Claimed(st, i, ev).checkouts == st.checkouts
    ensures ProcessFound(st, i, ev, now).1 != ReferenceMissing
    ensures ProcessFound(st, i, ev, now).0 == Decided(Claimed(st, i, ev), i, ev, now)
  {}

  lemma ClaimKeepsRest(st: Store, i: nat, ev: Event, anchor: string -> string)
    requires i < |st.checkouts|
    ensures Books(st, anchor) ==> Books(Claimed(st, i, ev), anchor)
    ensures StoreSolvent(st) ==> StoreSolvent(Claimed(st, i, ev))
  {}

  lemma ProcessKeepsBooks(st: Store, ev: Event, now: int, anchor: string -> string)
    requires Books(st, anchor) && Consistent(ev, anchor)
    ensures Books(ProcessWebhook(st, ev, now).0, anchor)
  {
    var found := CheckoutForProvider(st.checkouts, ev);
    if EventKey(ev) !in st.events && found.Some? {
      FoundKeepsBooks(st, found.value, ev, now, anchor);
    }
  }

  lemma SpendKeepsBooks(st: Store, a: Actor, ref: string, amount: int, anchor: string -> string)
    requires Books(st, anchor) && CanSpend(st.money, a, ref, amount)
    ensures Books(st.(money := Spend(st.money, a, ref, amount)), anchor)
  {
    var ledger := st.money.ledger;
    var ledger' := Spend(st.money, a, ref, amount).ledger;
    SpendKeepsWallets(st.money, a, ref, amount);
    Append(ledger, ledger'[|ledger|]);
    forall i | 0 <= i < |st.checkouts| ensures CheckoutBooks(st.checkouts[i], ledger') {
      assert CheckoutBooks(st.checkouts[i], ledger);
    }
  }

  // ---------------------------------------------------------------- balance without spending

  /** A step changes one actor's balance by exactly the change in what that actor has paid for. */
  lemma BalanceFollows(cs: seq<Checkout>, i: nat, c: Checkout, ws: map<Actor, Wallet>, ws': map<Actor, Wallet>,
      w: Wallet)
    requires Solvent(cs, ws) && i < |cs| && c.actor == cs[i].actor
    requires ws' == ws[c.actor := w] || (ws' == ws && w == WalletOf(ws, c.actor))
    requires w.quarantined == 0
    requires w.balance == WalletOf(ws, c.actor).balance - Contribution(cs[i], c.actor) + Contribution(c, c.actor)
    ensures Solvent(cs[i := c], ws')
  {
    forall a ensures WalletOf(ws', a).balance == PaidCredit(cs[i := c], a) && WalletOf(ws', a).quarantined == 0 {
      PaidCreditUpdate(cs, i, c, a);
    }
  }

  lemma ConfirmKeepsSolvent(cs: seq<Checkout>, i: nat, c: Checkout, m: Money, ref: string, now: int,
      anchor: string -> string)
    requires CheckoutsOk(cs, anchor) && AllBooks(cs, m.ledger) && AllOwned(cs, m.ledger, anchor)
    requires LedgerShape(m.ledger)
    requires Solvent(cs, m.wallets)
    requires i < |cs| && c == cs[i].(paymentId := c.paymentId)
    requires c.linkId != "" && anchor(ref) == c.linkId && cs[i].confirmedAt.None? && c.status != Paid
    ensures var c' := ConfirmedRow(c, now); Solvent(cs[i := c'], CreditWallet(m, c', ref, c.included).wallets)
  {
    var c' := ConfirmedRow(c, now);
    CreditEffect(cs, i, c', m, ref, anchor);
    var ws' := CreditWallet(m, c', ref, c.included).wallets;
    BalanceFollows(cs, i, c', m.wallets, ws', ws'[c.actor]);
  }

  lemma ReverseKeepsSolvent(cs: seq<Checkout>, i: nat, c: Checkout, m: Money, ref: string, status: Status, now: int,
                            anchor: string -> string)
    requires CheckoutsOk(cs, anchor) && AllBooks(cs, m.ledger) && AllOwned(cs, m.ledger, anchor)
    requires LedgerShape(m.ledger)
    requires Solvent(cs, m.wallets)
    requires i < |cs| && c == cs[i].(paymentId := c.paymentId) && CheckoutShape(c)
    requires c.linkId != "" && anchor(ref) == c.linkId && !Terminal(c.status) && Terminal(status)
    ensures var c' := ReversedRow(c, status, now);
      Solvent(cs[i := c'], ReverseCheckoutCredit(m, c', ref, status).wallets)
  {
    var c' := ReversedRow(c, status, now);
    ReversalEffect(cs, i, m, ref, status, anchor);
    PaidCreditUpdate(cs, i, c, c.actor);
    var ws' := ReverseCheckoutCredit(m, c', ref, status).wallets;
    BalanceFollows(cs, i, c', m.wallets, ws', WalletOf(ws', c.actor));
  }

  ghost predicate StoreSolvent(st: Store) {
    Solvent(st.checkouts, st.money.wallets)
  }

  lemma RewriteKeepsSolvent(cs: seq<Checkout>, i: nat, c: Checkout, ws: map<Actor, Wallet>)
    requires Solvent(cs, ws) && i < |cs|
    requires c == cs[i].(paymentId := c.paymentId, status := c.status)
    requires c.status == cs[i].status || (c.status != Paid && cs[i].status != Paid)
    ensures Solvent(cs[i := c], ws)
  {
    assert WalletOf(ws, c.actor).quarantined == 0;
    BalanceFollows(cs, i, c, ws, ws, WalletOf(ws, c.actor));
  }

  lemma DecideKeepsSolvent(st: Store, i: nat, c: Checkout, ref: string, family: EventFamily, now: int,
      anchor: string -> string)
    requires Books(st, anchor) && i < |st.checkouts| && (family.Reversal? ==> Terminal(family.status))
    requires c == st.checkouts[i].(paymentId := c.paymentId) && CheckoutShape(c)
    requires c.linkId != "" && anchor(ref) == c.linkId && StoreSolvent(st)
    ensures StoreSolvent(Decide(st, i, c, ref, family, now))
  {
    match Transition(c.status, family).0
    case Confirm => ConfirmKeepsSolvent(st.checkouts, i, c, st.money, ref, now, anchor);
    case Reverse => ReverseKeepsSolvent(st.checkouts, i, c, st.money, ref, family.status, now, anchor);
    case _ => RewriteKeepsSolvent(st.checkouts, i, c.(status := Transition(c.status, family).1), st.money.wallets);
  }

  lemma FoundKeepsSolvent(st: Store, i: nat, ev: Event, now: int, anchor: string -> string)
    requires Books(st, anchor) && Consistent(ev, anchor) && StoreSolvent(st)
    requires CheckoutForProvider(st.checkouts, ev) == Some(i)
    ensures StoreSolvent(ProcessFound(st, i, ev, now).0)
  {
    ResolvedIsAnchored(st.checkouts, i, ev, anchor);
    ClaimKeepsRest(st, i, ev, anchor);
    DecidedKeepsSolvent(Claimed(st, i, ev), i, ev, now, anchor);
    FoundIsDecided(st, i, ev, now);
  }

  lemma DecidedKeepsSolvent(st: Store, i: nat, ev: Event, now: int, anchor: string -> string)
    requires Books(st, anchor) && StoreSolvent(st) && i < |st.checkouts|
    requires var c := WithPayment(st.checkouts[i], ev);
      CheckoutShape(c) && c.linkId != "" && anchor(PaymentRef(c, ev)) == c.linkId
    ensures StoreSolvent(Decided(st, i, ev, now))
  {
    var c := WithPayment(st.checkouts[i], ev);
    DecideKeepsSolvent(st, i, c, PaymentRef(c, ev), Classify(ev.kind), now, anchor);
  }

  lemma ProcessKeepsSolvent(st: Store, ev: Event, now: int, anchor: string -> string)
    requires Books(st, anchor) && Consistent(ev, anchor) && StoreSolvent(st)
    ensures StoreSolvent(ProcessWebhook(st, ev, now).0)
  {
    var found := CheckoutForProvider(st.checkouts, ev);
    if EventKey(ev) !in st.events && found.Some? {
      FoundKeepsSolvent(st, found.value, ev, now, anchor);
    }
  }

  // ---------------------------------------------------------------- entitlement

  /** Rewriting checkout `i` keeps every other backing; its own must be re-established or dropped. */
  lemma BackingSurvives(cs: seq<Checkout>, i: nat, c: Checkout, ents: map<Actor, Entitlement>, ents': map<Actor,
      Entitlement>)
    requires EntitlementsBacked(cs, ents) && i < |cs|
    requires forall a :: a in ents' && ents'[a].active ==>
      || Backs(c, a, ents'[a])
      || (a in ents && ents'[a] == ents[a] && !Backs(cs[i], a, ents[a]))
    ensures EntitlementsBacked(cs[i := c], ents')
  {
    forall a | a in ents' && ents'[a].active ensures IsBacked(cs[i := c], a, ents'[a]) {
      if Backs(c, a, ents'[a]) {
        assert Backs(cs[i := c][i], a, ents'[a]);
      } else {
        var k :| 0 <= k < |cs| && Backs(cs[k], a, ents[a]);
        assert Backs(cs[i := c][k], a, ents'[a]);
      }
    }
  }

  lemma DecideKeepsEntitlements(st: Store, i: nat, c: Checkout, ref: string, family: EventFamily, now: int)
    requires EntitlementsBacked(st.checkouts, st.entitlements) && i < |st.checkouts|
    requires c == st.checkouts[i].(paymentId := c.paymentId)
    ensures var st' := Decide(st, i, c, ref, family, now); EntitlementsBacked(st'.checkouts, st'.entitlements)
  {
    var (decision, next) := Transition(c.status, family);
    match decision
    case Confirm =>
      var c' := ConfirmedRow(c, now);
      BackingSurvives(st.checkouts, i, c', st.entitlements, ActivateEntitlement(st.entitlements, c', now));
    case Reverse =>
      var c' := ReversedRow(c, next, now);
      BackingSurvives(st.checkouts, i, c', st.entitlements, RevokeEntitlement(st.entitlements, c', next));
    case Expire =>
      BackingSurvives(st.checkouts, i, c.(status := next), st.entitlements,
                      RevokeEntitlement(st.entitlements, c, next));
    case Cancel =>
      BackingSurvives(st.checkouts, i, c.(status := next), st.entitlements,
                      RevokeEntitlement(st.entitlements, c, next));
    case _ =>
      BackingSurvives(st.checkouts, i, c, st.entitlements, st.entitlements);
  }

  lemma ProcessKeepsEntitlements(st: Store, ev: Event, now: int)
    requires EntitlementsBacked(st.checkouts, st.entitlements)
    ensures var st' := ProcessWebhook(st, ev, now).0; EntitlementsBacked(st'.checkouts, st'.entitlements)
  {
    var found := CheckoutForProvider(st.checkouts, ev);
    if EventKey(ev) !in st.events && found.Some? {
      var i := found.value;
      var c := WithPayment(st.checkouts[i], ev);
      if PaymentRef(c, ev) != "" {
        var claimed := Claim(st, ev, Outcome(Transition(c.status, Classify(ev.kind)).0, ev.kind, c.id));
        DecideKeepsEntitlements(claimed, i, c, PaymentRef(c, ev), Classify(ev.kind), now);
      }
    }
  }
}
